/** The 64-bit carryless range coder: its state machine on values, and the two mutable objects that run it. */
module RangeCoder {
  import opened Bits
  import opened Outcomes

  const TOP: nat := 0x100_0000_0000_0000
  const BOTTOM: nat := 0x1_0000_0000_0000
  const MAX_TOTAL: nat := 0x8000_0000

  datatype RangeError = InvalidFrequency | UnexpectedEof

  /** One coding step: the interval [cum, cum + freq) out of total. */
  datatype Slot = Slot(cum: u64, freq: u64, total: u64)

  /** The numbers [low, low + range) an encoder or decoder has narrowed to. */
  datatype Interval = Interval(low: u64, range: u64)

  const WHOLE: Interval := Interval(0, 0xffff_ffff_ffff_ffff)

  predicate Validate(s: Slot) {
    && s.cum + s.freq < WORD
    && !(s.freq == 0 || s.total == 0 || s.total >= MAX_TOTAL || s.cum + s.freq > s.total)
  }

  // ----- one renormalisation step -----

  /** Whether a byte leaves the interval, and the range after a possible truncation. */
  function NormalizeStep(low: u64, range: u64): (bool, u64) {
    if BitXor(low, (low + range) % WORD) < TOP then (true, range)
    else if range < BOTTOM then (true, BitAnd((WORD - low) % WORD, BOTTOM - 1))
    else (false, range)
  }

  predicate Settled(low: u64, range: u64) {
    low / 0x100_0000_0000_0000 == ((low + range) % 0x1_0000_0000_0000_0000) / 0x100_0000_0000_0000
  }

  lemma XorTest(a: nat, b: nat)
    ensures BitXor(a, b) < TOP <==> a / 0x100_0000_0000_0000 == b / 0x100_0000_0000_0000
  {
    Powers();
    XorBelow(a, b, 56);
  }

  lemma MaskTest(a: nat)
    ensures BitAnd(a, BOTTOM - 1) == a % 0x1_0000_0000_0000
  {
    Powers();
    AndMask(a, 48);
  }

  /** The xor test asks for equal top bytes; the mask takes a remainder. */
  lemma NormalizeStepByQuotients(low: u64, range: u64)
    ensures NormalizeStep(low, range) ==
            if Settled(low, range) then (true, range)
            else if range < BOTTOM then (true, (0x1_0000_0000_0000_0000 - low) % 0x1_0000_0000_0000)
            else (false, range)
  {
    hide BitXor, BitAnd;
    XorTest(low, (low + range) % WORD);
    MaskTest((WORD - low) % WORD);
    assert (WORD - low) % WORD % 0x1_0000_0000_0000 == (WORD - low) % 0x1_0000_0000_0000;
  }

  /** Every state of a coder: the interval may end exactly at 2^64, but then it is narrow. */
  ghost predicate Inv(s: Interval) {
    && 1 <= s.range
    && s.low + s.range <= WORD
    && (s.low + s.range == WORD ==> s.range < TOP)
  }

  /** A state between symbols. */
  ghost predicate Ready(s: Interval) {
    Inv(s) && !NormalizeStep(s.low, s.range).0
  }

  function Shifted(low: u64, range: u64): Interval {
    Interval(low * 0x100 % WORD, range * 0x100 % WORD)
  }

  /** Truncation neither empties nor enlarges the interval, and shifting out a byte keeps the invariant. */
  lemma StepKeepsInv(s: Interval)
    requires Inv(s) && NormalizeStep(s.low, s.range).0
    ensures var r, t := NormalizeStep(s.low, s.range).1, Shifted(s.low, NormalizeStep(s.low, s.range).1);
            && 1 <= r <= s.range
            && s.low % TOP + r <= TOP
            && t.low == s.low % TOP * 0x100 && t.range == r * 0x100
            && Inv(t)
            && (r == s.range || t.low + t.range == WORD)
            && (s.low + s.range == WORD ==> t.low + t.range == WORD)
  {
    NormalizeStepByQuotients(s.low, s.range);
    if Settled(s.low, s.range) {
      SettledStep(s);
    } else {
      TruncatedStep(s);
    }
  }

  lemma SettledStep(s: Interval)
    requires Inv(s) && Settled(s.low, s.range)
    ensures s.low + s.range < WORD && s.low % TOP + s.range < TOP
    ensures Shifted(s.low, s.range) == Interval(s.low % TOP * 0x100, s.range * 0x100)
  {
    ShiftedWord(s.low);
    ShiftedWord(s.range);
    NotStraddling(s);
  }

  /** A settled interval does not reach the next multiple of 2^56. */
  lemma NotStraddling(s: Interval)
    requires Inv(s) && Settled(s.low, s.range)
    ensures s.low + s.range < WORD && s.low % TOP + s.range < TOP
  {
  }

  lemma TruncatedStep(s: Interval)
    requires Inv(s) && !Settled(s.low, s.range) && s.range < BOTTOM
    ensures var r := (0x1_0000_0000_0000_0000 - s.low) % 0x1_0000_0000_0000;
            && 1 <= r <= s.range
            && s.low % TOP + r == TOP
            && Shifted(s.low, r) == Interval(s.low % TOP * 0x100, r * 0x100)
            && s.low % TOP * 0x100 + r * 0x100 == WORD
            && r * 0x100 < TOP
            && (s.low + s.range == WORD ==> r == s.range)
  {
    Straddles(s);
    DistanceBelow(s.low / TOP, s.low % TOP);
  }

  /** A short range that is not settled reaches the next multiple of 2^56. */
  lemma Straddles(s: Interval)
    requires Inv(s) && !Settled(s.low, s.range) && s.range < BOTTOM
    ensures s.low % TOP + s.range >= TOP
    ensures s.low + s.range == WORD ==> s.low % TOP + s.range == TOP
  {
  }

  /** The distance to the next multiple of 2^56, when it is below 2^48. */
  lemma DistanceBelow(q: nat, rest: nat)
    requires q < 0x100 && rest < TOP && TOP - rest < BOTTOM
    ensures (WORD - (q * TOP + rest)) % BOTTOM == TOP - rest
  {
    assert WORD - (q * TOP + rest) == (0xff - q) * 0x100 * BOTTOM + (TOP - rest);
  }

  // ----- the coder on values -----

  /** A restored interval may wrap around 2^64. A settled one then comes closer to ending at 2^64 with every byte, and a
      truncated one ends there. */
  lemma WrappedStep(s: Interval)
    requires 1 <= s.range && !Inv(s) && NormalizeStep(s.low, s.range).0
    ensures var r, t := NormalizeStep(s.low, s.range).1, Shifted(s.low, NormalizeStep(s.low, s.range).1);
            && 1 <= t.range
            && (Inv(t) || t.range < s.range)
  {
    NormalizeStepByQuotients(s.low, s.range);
    if Settled(s.low, s.range) {
      SettledWrap(s);
    } else {
      TruncatedWrap(s);
    }
  }

  lemma SettledWrap(s: Interval)
    requires 1 <= s.range && !Inv(s) && Settled(s.low, s.range)
    ensures Shifted(s.low, s.range).range == WORD - (WORD - s.range) * 0x100
    ensures 1 <= Shifted(s.low, s.range).range < s.range
  {
    ShiftedWord(s.range);
    WrapIsShort(s);
  }

  lemma WrapIsShort(s: Interval)
    requires 1 <= s.range && !Inv(s) && Settled(s.low, s.range)
    ensures s.range > WORD - TOP
  {
  }

  lemma TruncatedWrap(s: Interval)
    requires 1 <= s.range && !Inv(s) && !Settled(s.low, s.range) && s.range < BOTTOM
    ensures var r := (0x1_0000_0000_0000_0000 - s.low) % 0x1_0000_0000_0000;
            && r == WORD - s.low
            && Inv(Shifted(s.low, r))
  {
    var r := WORD - s.low;
    assert 1 <= r < BOTTOM;
    ShiftedWord(s.low);
    ShiftedWord(r);
    assert s.low % 0x100_0000_0000_0000 == 0x100_0000_0000_0000 - r;
  }

  /** How far the renormalisation loop still has to go, besides its range. */
  ghost function Unsettled(s: Interval): nat {
    if Inv(s) then 0 else s.range
  }

  lemma StepMakesProgress(s: Interval)
    requires 1 <= s.range && NormalizeStep(s.low, s.range).0
    ensures var t := Shifted(s.low, NormalizeStep(s.low, s.range).1);
            && 1 <= t.range
            && (Inv(s) ==> Inv(t))
            && (Unsettled(t) < Unsettled(s)
                || (Inv(s) && (if s.low + s.range < WORD && t.low + t.range == WORD then true
                               else (s.low + s.range < WORD <==> t.low + t.range < WORD) && s.range < t.range)))
  {
    hide NormalizeStep;
    if Inv(s) {
      StepKeepsInv(s);
    } else {
      WrappedStep(s);
    }
  }

  /** Renormalisation: the state it stops in and the bytes that leave. */
  function Renorm(s: Interval): (r: (Interval, seq<byte>))
    requires 1 <= s.range
    ensures r.0.range >= BOTTOM
    ensures Inv(s) ==> Ready(r.0)
    decreases Unsettled(s), s.low + s.range < WORD, WORD - s.range
  {
    var (more, range) := NormalizeStep(s.low, s.range);
    if !more then (Interval(s.low, range), [])
    else
      StepMakesProgress(s);
      var (t, out) := Renorm(Shifted(s.low, range));
      (t, [s.low / TOP] + out)
  }

  /** One turn of the renormalisation loop. */
  lemma RenormTurn(s: Interval)
    requires 1 <= s.range && NormalizeStep(s.low, s.range).0
    ensures var t := Shifted(s.low, NormalizeStep(s.low, s.range).1);
            && 1 <= t.range
            && (Inv(s) ==> Inv(t))
            && Renorm(s) == (Renorm(t).0, [s.low / TOP] + Renorm(t).1)
            && (Unsettled(t) < Unsettled(s)
                || (Inv(s) && (if s.low + s.range < WORD && t.low + t.range == WORD then true
                               else (s.low + s.range < WORD <==> t.low + t.range < WORD) && s.range < t.range)))
  {
    hide NormalizeStep;
    StepMakesProgress(s);
  }

  lemma RenormStops(s: Interval)
    requires 1 <= s.range && !NormalizeStep(s.low, s.range).0
    ensures NormalizeStep(s.low, s.range).1 == s.range && Renorm(s) == (s, [])
  {
  }

  /** The loop's state after n turns, whether or not it would have gone on. */
  function Turns(s: Interval, n: nat): Interval
    decreases n
  {
    if n == 0 then s else Turns(Shifted(s.low, NormalizeStep(s.low, s.range).1), n - 1)
  }

  predicate StopsAfter(s: Interval, n: nat) {
    var t := Turns(s, n);
    !NormalizeStep(t.low, t.range).0
  }

  lemma {:induction false} EmptyNeverStops(low: u64, n: nat)
    ensures !StopsAfter(Interval(low, 0), n)
    decreases n
  {
    hide NormalizeStep;
    EmptyGoesOn(low);
    if n > 0 {
      EmptyNeverStops(low * 0x100 % WORD, n - 1);
    }
  }

  lemma EmptyGoesOn(low: u64)
    ensures NormalizeStep(low, 0) == (true, 0)
    ensures Shifted(low, 0) == Interval(low * 0x100 % WORD, 0)
  {
    hide BitXor, BitAnd;
    NormalizeStepByQuotients(low, 0);
  }

  lemma {:induction false} RenormStopsAfterItsBytes(s: Interval)
    requires 1 <= s.range
    ensures StopsAfter(s, |Renorm(s).1|)
    decreases |Renorm(s).1|
  {
    hide NormalizeStep;
    if NormalizeStep(s.low, s.range).0 {
      RenormTurn(s);
      RenormStopsAfterItsBytes(Shifted(s.low, NormalizeStep(s.low, s.range).1));
    } else {
      RenormStops(s);
    }
  }

  /** The renormalisation loop ends exactly when the interval is not empty. */
  lemma RenormEndsIff(s: Interval)
    ensures (exists n :: StopsAfter(s, n)) <==> s.range != 0
  {
    hide StopsAfter;
    if s.range != 0 {
      RenormStopsAfterItsBytes(s);
    } else {
      forall n ensures !StopsAfter(s, n) {
        EmptyNeverStops(s.low, n);
      }
    }
  }

  /** Narrow to a slot, given the width of one frequency unit. */
  function Narrow(s: Interval, unit: u64, slot: Slot): (r: Interval)
    requires Validate(slot) && unit * slot.total <= s.range
    ensures unit >= 1 ==> r.range >= 1 && (Inv(s) ==> Inv(r))
    ensures unit == 0 ==> r.range == 0
  {
    NarrowFits(s, unit, slot);
    Interval((s.low + unit * slot.cum % WORD) % WORD, unit * slot.freq)
  }

  lemma UnitsFit(unit: nat, cum: nat, freq: nat, total: nat)
    requires cum + freq <= total
    ensures unit * cum + unit * freq <= unit * total
  {
    var gap := total - cum - freq;
    assert unit * gap >= 0;
    assert unit * cum + unit * freq + unit * gap == unit * total;
  }

  lemma NarrowFits(s: Interval, unit: u64, slot: Slot)
    requires Validate(slot) && unit * slot.total <= s.range
    ensures 0 <= unit * slot.cum < WORD && 0 <= unit * slot.freq < WORD
    ensures unit * slot.cum + unit * slot.freq <= s.range
    ensures unit >= 1 <==> unit * slot.freq >= 1
    ensures Inv(s) && unit >= 1 ==>
              && (s.low + unit * slot.cum % WORD) % WORD == s.low + unit * slot.cum
              && Inv(Interval(s.low + unit * slot.cum, unit * slot.freq))
  {
    UnitsFit(unit, slot.cum, slot.freq, slot.total);
    NonNegative(unit, slot.cum);
    NonNegative(unit, slot.freq);
    if unit == 0 {
      assert unit * slot.freq == 0;
      return;
    }
    ProductAtLeast(slot.freq, unit);
    if Inv(s) {
      NoWrap(s, unit * slot.cum, unit * slot.freq);
    }
  }

  lemma NonNegative(a: nat, b: nat)
    ensures 0 <= a * b
  {
  }

  lemma NoWrap(s: Interval, offset: nat, width: nat)
    requires Inv(s) && offset + width <= s.range && 1 <= width
    ensures offset < WORD && width < WORD && s.low + offset < WORD
    ensures (s.low + offset % WORD) % WORD == s.low + offset
    ensures Inv(Interval(s.low + offset, width))
  {
  }

  lemma ReadyIsWide(s: Interval)
    requires Ready(s)
    ensures s.range >= BOTTOM
  {
    NormalizeStepByQuotients(s.low, s.range);
  }

  /** Every symbol leaves at least 2^17 units, so dividing never empties the interval. */
  lemma UnitWidth(s: Interval, total: u64)
    requires Ready(s) && 0 < total < MAX_TOTAL
    ensures 0x2_0000 <= s.range / total < WORD && s.range / total * total <= s.range
  {
    ReadyIsWide(s);
    WideUnit(s, total);
  }

  lemma WideUnit(s: Interval, total: u64)
    requires s.range >= BOTTOM && 0 < total < MAX_TOTAL
    ensures 0x2_0000 <= s.range / total < WORD && s.range / total * total <= s.range
  {
    var q := s.range / total;
    assert s.range == total * q + s.range % total;
    if q < 0x2_0000 {
      Bits.ProductMonotone(total, q, 0x1_ffff);
      assert false;
    }
    ProductAtLeast(total, q);
  }

  /** A slot an encoder in this state can encode: each of its units is at least 1 wide. A state between symbols always
      is wide enough; a restored one may not be. */
  ghost predicate CanEncode(s: Interval, slot: Slot) {
    Validate(slot) && (Ready(s) || slot.total <= s.range)
  }

  /** The width of one frequency unit. */
  function Unit(s: Interval, slot: Slot): (unit: u64)
    requires slot.total > 0
    ensures unit * slot.total <= s.range
  {
    QuotientFits(s.range, slot.total);
    s.range / slot.total
  }

  lemma CanEncodeIff(s: Interval, slot: Slot)
    requires Validate(slot)
    ensures CanEncode(s, slot) <==> Unit(s, slot) >= 1
    ensures CanEncode(s, slot) <==> slot.total <= s.range
  {
    if Ready(s) {
      UnitWidth(s, slot.total);
    }
    QuotientAtLeast(s.range, slot.total);
  }

  lemma QuotientAtLeast(range: nat, total: nat)
    requires total > 0
    ensures range / total >= 1 <==> total <= range
  {
  }

  /** The part of a state's interval that a slot stands for. */
  function Narrowed(s: Interval, slot: Slot): (r: Interval)
    requires CanEncode(s, slot)
    ensures 1 <= r.range
    ensures Inv(s) ==> Inv(r)
  {
    CanEncodeIff(s, slot);
    Narrow(s, Unit(s, slot), slot)
  }

  /** One encoded symbol: the next state and the bytes written. */
  function EncodeStep(s: Interval, slot: Slot): (r: (Interval, seq<byte>))
    requires CanEncode(s, slot)
    ensures r.0.range >= BOTTOM
    ensures Inv(s) ==> Ready(r.0)
  {
    Renorm(Narrowed(s, slot))
  }

  /** Encoding a slot ends exactly when the range is at least the slot's total. */
  lemma EncodeEndsIff(s: Interval, slot: Slot)
    requires Validate(slot)
    ensures (exists n :: StopsAfter(Narrow(s, Unit(s, slot), slot), n)) <==> slot.total <= s.range
  {
    hide StopsAfter;
    CanEncodeIff(s, slot);
    RenormEndsIff(Narrow(s, Unit(s, slot), slot));
  }

  /** The top n bytes of a word, high byte first. */
  function TopBytes(low: u64, n: nat): (r: seq<byte>)
    ensures |r| == n
    decreases n
  {
    if n == 0 then [] else [low / TOP] + TopBytes(low * 0x100 % WORD, n - 1)
  }

  // ----- the decoder on values -----

  datatype Pending = Pending(unit: u64, total: u64)

  /** A decoder's fields, its input aside. */
  datatype DecoderState = DecoderState(low: u64, code: u64, range: u64, pending: Option<Pending>, pos: nat)

  ghost predicate DecoderInv(d: DecoderState) {
    && Inv(Interval(d.low, d.range))
    && (d.pending.Some? ==>
          var p := d.pending.value;
          0 < p.total < MAX_TOTAL && 1 <= p.unit && p.unit * p.total <= d.range)
  }

  /** The word with one more input byte shifted in at the bottom. */
  function ShiftIn(code: u64, b: byte): (r: u64)
    ensures r == code * 0x100 % 0x1_0000_0000_0000_0000 + b
  {
    ShiftedWord(code);
    Powers();
    OrShifted(code % TOP, b, 8);
    BitOr(code * 0x100 % WORD, b)
  }

  lemma ShiftedWord(code: u64)
    ensures code * 0x100 % 0x1_0000_0000_0000_0000 == code % 0x100_0000_0000_0000 * 0x100
  {
  }

  function LoadCode(code: u64, bytes: seq<byte>): u64
    decreases |bytes|
  {
    if bytes == [] then code else LoadCode(ShiftIn(code, bytes[0]), bytes[1..])
  }

  function DecoderNew(input: seq<byte>): (r: Result<DecoderState, RangeError>)
    ensures r.Ok? ==> DecoderInv(r.value)
  {
    if |input| < 8 then Err(UnexpectedEof)
    else Ok(DecoderState(0, LoadCode(0, input[..8]), WHOLE.range, None, 8))
  }

  /** Renormalisation that reads a byte for every byte the encoder wrote; false when the input runs out. */
  function DecoderRenorm(d: DecoderState, input: seq<byte>): (r: (DecoderState, bool))
    requires DecoderInv(d) && d.pending.None?
    ensures DecoderInv(r.0) && r.0.pending.None?
    decreases d.low + d.range < WORD, WORD - d.range
  {
    var (more, range) := NormalizeStep(d.low, d.range);
    if !more then (d.(range := range), true)
    else
      StepMakesProgress(Interval(d.low, d.range));
      if d.pos >= |input| then
        TruncationKeepsInv(Interval(d.low, d.range));
        (d.(range := range), false)
      else
        var t := Shifted(d.low, range);
        DecoderRenorm(DecoderState(t.low, ShiftIn(d.code, input[d.pos]), t.range, None, d.pos + 1), input)
  }

  lemma TruncationKeepsInv(s: Interval)
    requires Inv(s)
    ensures Inv(Interval(s.low, NormalizeStep(s.low, s.range).1))
  {
    NormalizeStepByQuotients(s.low, s.range);
    if !Settled(s.low, s.range) && s.range < BOTTOM {
      TruncatedStep(s);
    }
  }

  lemma DecoderRenormUnfolds(d: DecoderState, input: seq<byte>)
    requires DecoderInv(d) && d.pending.None? && NormalizeStep(d.low, d.range).0
    requires Inv(Shifted(d.low, NormalizeStep(d.low, d.range).1))
    ensures var cut := NormalizeStep(d.low, d.range).1;
            var t := Shifted(d.low, cut);
            DecoderRenorm(d, input) ==
            if d.pos >= |input| then (d.(range := cut), false)
            else DecoderRenorm(DecoderState(t.low, ShiftIn(d.code, input[d.pos]), t.range, None, d.pos + 1), input)
  {
  }

  /** One turn of the decoder's renormalisation loop. */
  lemma DecoderRenormTurn(d: DecoderState, input: seq<byte>)
    requires DecoderInv(d) && d.pending.None? && NormalizeStep(d.low, d.range).0
    ensures var cut := NormalizeStep(d.low, d.range).1;
            var t := Shifted(d.low, cut);
            && DecoderInv(d.(range := cut))
            && Inv(t)
            && (d.pos >= |input| ==> DecoderRenorm(d, input) == (d.(range := cut), false))
            && (d.pos < |input| ==>
                  DecoderRenorm(d, input) ==
                  DecoderRenorm(DecoderState(t.low, ShiftIn(d.code, input[d.pos]), t.range, None, d.pos + 1), input))
            && (if d.low + d.range < WORD && t.low + t.range == WORD then true
                else (d.low + d.range < WORD <==> t.low + t.range < WORD) && d.range < t.range)
  {
    RenormTurn(Interval(d.low, d.range));
    TruncationKeepsInv(Interval(d.low, d.range));
    DecoderRenormUnfolds(d, input);
  }

  function DecodeFreq(d: DecoderState, total: u64): (r: (DecoderState, Result<u64, RangeError>))
    requires DecoderInv(d)
    ensures DecoderInv(r.0)
    ensures r.1.Ok? ==> r.1.value < total < MAX_TOTAL
  {
    if d.pending.Some? || total == 0 || total >= MAX_TOTAL then (d, Err(InvalidFrequency))
    else
      QuotientFits(d.range, total);
      var unit := d.range / total;
      if unit == 0 then (d, Err(InvalidFrequency))
      else
        QuotientFits((d.code - d.low) % WORD, unit);
        var value := (d.code - d.low) % WORD / unit;
        if value >= total then (d, Err(InvalidFrequency))
        else
          (d.(pending := Some(Pending(unit, total))), Ok(value))
  }

  lemma QuotientFits(range: nat, total: nat)
    requires total > 0
    ensures 0 <= range / total <= range
    ensures range / total * total <= range
  {
    var q := range / total;
    assert range == total * q + range % total;
    assert total * q == q * total;
    if q > 0 {
      ProductAtLeast(total, q);
    }
  }

  function Advance(d: DecoderState, slot: Slot, input: seq<byte>): (r: (DecoderState, Result<(), RangeError>))
    requires DecoderInv(d)
    ensures DecoderInv(r.0)
    ensures r.1.Ok? ==> r.0.pending.None?
  {
    if !Validate(slot) || d.pending.None? || d.pending.value.total != slot.total then (d, Err(InvalidFrequency))
    else
      var unit := d.pending.value.unit;
      var s := Narrow(Interval(d.low, d.range), unit, slot);
      var (e, more) := DecoderRenorm(DecoderState(s.low, d.code, s.range, None, d.pos), input);
      (e, if more then Ok(()) else Err(UnexpectedEof))
  }

  // ----- the mutable encoder and decoder -----

  datatype Snapshot = Snapshot(low: u64, range: u64, out: seq<byte>)

  /** What a new encoder holds. */
  const BLANK: Snapshot := Snapshot(0, WHOLE.range, [])

  function StateOf(s: Snapshot): Interval {
    Interval(s.low, s.range)
  }

  class RangeEncoder {
    var low: u64
    var range: u64
    var out: seq<byte>

    ghost predicate Valid()
      reads this
    {
      Ready(State())
    }

    function State(): Interval
      reads this
    {
      Interval(low, range)
    }

    constructor ()
      ensures Valid() && TakeSnapshot() == BLANK
      ensures low == 0 && range == 0xffff_ffff_ffff_ffff && out == []
    {
      low, range, out := 0, WHOLE.range, [];
      new;
      NormalizeStepByQuotients(low, range);
    }

    constructor Restore(s: Snapshot)
      requires s.range != 0
      ensures TakeSnapshot() == s
    {
      low, range, out := s.low, s.range, s.out;
    }

    static method FromSnapshot(s: Snapshot) returns (r: Result<RangeEncoder, RangeError>)
      ensures r.Ok? <==> s.range != 0
      ensures r.Ok? ==> fresh(r.value) && r.value.TakeSnapshot() == s
      ensures r.Err? ==> r.error == InvalidFrequency
    {
      if s.range == 0 {
        return Err(InvalidFrequency);
      }
      var e := new RangeEncoder.Restore(s);
      r := Ok(e);
    }

    function TakeSnapshot(): Snapshot
      reads this
    {
      Snapshot(low, range, out)
    }

    /** A refused slot changes nothing. Any other is encoded if the range is wide enough; if not, `EncodeEndsIff` says
        that the source's loop does not end. */
    method Encode(slot: Slot) returns (r: Result<(), RangeError>)
      requires Validate(slot) ==> CanEncode(State(), slot)
      modifies this
      ensures old(Valid()) ==> Valid()
      ensures r == if Validate(slot) then Ok(()) else Err(InvalidFrequency)
      ensures r.Ok? ==> range >= BOTTOM
      ensures r.Ok? ==>
                && State() == EncodeStep(old(State()), slot).0
                && out == old(out) + EncodeStep(old(State()), slot).1
      ensures r.Err? ==> State() == old(State()) && out == old(out)
    {
      if !Validate(slot) {
        return Err(InvalidFrequency);
      }
      ghost var before := State();
      CanEncodeIff(before, slot);
      range := Unit(State(), slot);
      NarrowInPlace(before, slot);
      RenormInPlace();
      r := Ok(());
    }

    /** `range` already holds one frequency unit of `before`. */
    method NarrowInPlace(ghost before: Interval, slot: Slot)
      requires Validate(slot) && low == before.low
      requires 1 <= range && range * slot.total <= before.range
      modifies this`low, this`range
      ensures State() == Narrow(before, old(range), slot)
    {
      NarrowFits(before, range, slot);
      low := (low + range * slot.cum % WORD) % WORD;
      range := range * slot.freq;
    }

    method RenormInPlace()
      requires 1 <= range
      modifies this
      ensures State() == Renorm(old(State())).0
      ensures out == old(out) + Renorm(old(State())).1
    {
      hide Renorm, BitXor, BitAnd;
      ghost var start, emitted := State(), [];
      var more, cut := NormalizeStep(low, range).0, NormalizeStep(low, range).1;
      while more
        invariant 1 <= range
        invariant (more, cut) == NormalizeStep(low, range)
        invariant out == old(out) + emitted
        invariant Renorm(start).0 == Renorm(State()).0
        invariant Renorm(start).1 == emitted + Renorm(State()).1
        decreases Unsettled(State()), low + range < WORD, WORD - range
      {
        RenormTurn(State());
        ghost var s := State();
        PushByte(cut);
        assert (emitted + [s.low / TOP]) + Renorm(State()).1 == emitted + ([s.low / TOP] + Renorm(State()).1);
        emitted := emitted + [s.low / TOP];
        more, cut := NormalizeStep(low, range).0, NormalizeStep(low, range).1;
      }
      RenormStops(State());
      range := cut;
    }

    method PushByte(cut: u64)
      modifies this
      ensures out == old(out) + [old(low) / TOP]
      ensures State() == Shifted(old(low), cut)
    {
      range := cut;
      out := out + [low / TOP];
      low := low * 0x100 % WORD;
      range := range * 0x100 % WORD;
    }

    method Finish() returns (bytes: seq<byte>)
      modifies this
      ensures bytes == old(out) + TopBytes(old(low), 8)
    {
      for i := 0 to 8
        invariant out + TopBytes(low, 8 - i) == old(out) + TopBytes(old(low), 8)
      {
        out := out + [low / TOP];
        low := low * 0x100 % WORD;
      }
      bytes := out;
    }
  }

  class RangeDecoder {
    var low: u64
    var code: u64
    var range: u64
    var pending: Option<Pending>
    const input: seq<byte>
    var pos: nat

    ghost predicate Valid()
      reads this
    {
      DecoderInv(State()) && pos <= |input|
    }

    function State(): DecoderState
      reads this
    {
      DecoderState(low, code, range, pending, pos)
    }

    constructor Start(input: seq<byte>)
      ensures this.input == input && Valid()
      ensures State() == DecoderState(0, 0, WHOLE.range, None, 0)
    {
      low, code, range, pending, pos := 0, 0, WHOLE.range, None, 0;
      this.input := input;
    }

    static method Open(input: seq<byte>) returns (r: Result<RangeDecoder, RangeError>)
      ensures r.Err? <==> DecoderNew(input).Err?
      ensures r.Err? ==> r.error == DecoderNew(input).error
      ensures r.Ok? ==>
                && fresh(r.value) && r.value.Valid() && r.value.input == input
                && r.value.State() == DecoderNew(input).value
                && r.value.low == 0 && r.value.range == 0xffff_ffff_ffff_ffff && r.value.pos == 8
    {
      var d := new RangeDecoder.Start(input);
      for i := 0 to 8
        invariant d.Valid() && d.input == input && d.pos == i
        invariant d.low == 0 && d.range == WHOLE.range && d.pending == None
        invariant |input| >= 8 ==> LoadCode(d.code, input[i..8]) == LoadCode(0, input[..8])
      {
        var b := d.ReadByte();
        if b.Err? {
          return Err(b.error);
        }
        d.code := ShiftIn(d.code, b.value);
        if |input| >= 8 {
          assert input[i..8][1..] == input[i + 1..8];
        }
      }
      r := Ok(d);
    }

    method ReadByte() returns (r: Result<byte, RangeError>)
      requires pos <= |input|
      modifies this`pos
      ensures r == if old(pos) < |input| then Ok(input[old(pos)]) else Err(UnexpectedEof)
      ensures pos == if old(pos) < |input| then old(pos) + 1 else old(pos)
    {
      if pos >= |input| {
        return Err(UnexpectedEof);
      }
      r := Ok(input[pos]);
      pos := pos + 1;
    }

    method NextFreq(total: u64) returns (r: Result<u64, RangeError>)
      requires Valid()
      modifies this`pending
      ensures Valid()
      ensures (State(), r) == DecodeFreq(old(State()), total)
    {
      if pending.Some? || total == 0 || total >= MAX_TOTAL {
        return Err(InvalidFrequency);
      }
      var unit := range / total;
      if unit == 0 {
        return Err(InvalidFrequency);
      }
      var value := (code - low) % WORD / unit;
      if value >= total {
        return Err(InvalidFrequency);
      }
      QuotientFits(range, total);
      pending := Some(Pending(unit, total));
      r := Ok(value);
    }

    method AdvanceBy(slot: Slot) returns (r: Result<(), RangeError>)
      requires Valid()
      modifies this
      ensures Valid()
      ensures (State(), r) == Advance(old(State()), slot, input)
    {
      if !Validate(slot) || pending.None? || pending.value.total != slot.total {
        return Err(InvalidFrequency);
      }
      var unit := pending.value.unit;
      ghost var before := Interval(low, range);
      pending := None;
      range := unit;
      NarrowInPlace(before, slot);
      r := RenormInPlace();
    }

    /** `range` already holds one frequency unit of `before`. */
    method NarrowInPlace(ghost before: Interval, slot: Slot)
      requires Inv(before) && Validate(slot) && low == before.low
      requires 1 <= range && range * slot.total <= before.range
      modifies this`low, this`range
      ensures Interval(low, range) == Narrow(before, old(range), slot)
    {
      NarrowFits(before, range, slot);
      low := (low + range * slot.cum % WORD) % WORD;
      range := range * slot.freq;
    }

    method RenormInPlace() returns (r: Result<(), RangeError>)
      requires Valid() && pending == None
      modifies this
      ensures Valid()
      ensures var e := DecoderRenorm(old(State()), input);
              State() == e.0 && r == if e.1 then Ok(()) else Err(UnexpectedEof)
    {
      var more, cut := NormalizeStep(low, range).0, NormalizeStep(low, range).1;
      ghost var start := State();
      while more
        invariant Valid() && pending == None
        invariant (more, cut) == NormalizeStep(low, range)
        invariant DecoderRenorm(start, input) == DecoderRenorm(State(), input)
        decreases low + range < WORD, WORD - range
      {
        DecoderRenormTurn(State(), input);
        r := PullByte(cut);
        if r.Err? {
          return;
        }
        more, cut := NormalizeStep(low, range).0, NormalizeStep(low, range).1;
      }
      range := cut;
      r := Ok(());
    }

    /** One turn of the renormalisation loop; on a missing byte only `range` has changed. */
    method PullByte(cut: u64) returns (r: Result<(), RangeError>)
      requires pos <= |input|
      modifies this`range, this`pos, this`code, this`low
      ensures old(pos) >= |input| ==> r == Err(UnexpectedEof) && State() == old(State()).(range := cut)
      ensures old(pos) < |input| ==>
                && r == Ok(())
                && Interval(low, range) == Shifted(old(low), cut)
                && code == ShiftIn(old(code), input[old(pos)])
                && pos == old(pos) + 1
    {
      range := cut;
      var b := ReadByte();
      if b.Err? {
        return Err(b.error);
      }
      code := ShiftIn(code, b.value);
      low := low * 0x100 % WORD;
      range := range * 0x100 % WORD;
      r := Ok(());
    }
  }
}
