/** What the range coder does to its words, with every constant written out. */
module RangeLaws {
  import opened Bits
  import opened Outcomes
  import opened RangeCoder
  import opened RangeTheorems

  lemma AcceptedTriples(slot: Slot)
    ensures Validate(slot) <==> slot.freq > 0 && slot.total < 0x8000_0000 && slot.cum + slot.freq <= slot.total
  {
  }

  /** Both sides begin with the whole interval, and the decoder with the first eight bytes. */
  lemma BeginsWhole(input: seq<byte>)
    ensures BLANK == Snapshot(0, 0xffff_ffff_ffff_ffff, [])
    ensures DecoderNew(input) ==
            if |input| < 8 then Err(UnexpectedEof)
            else Ok(DecoderState(0, Word8(input[..8]), 0xffff_ffff_ffff_ffff, None, 8))
  {
    if |input| >= 8 {
      LoadedCode(input[..8]);
    }
  }

  // ----- renormalisation -----

  ghost predicate SameTopByte(s: Interval) {
    s.low / 0x100_0000_0000_0000 == (s.low + s.range) % 0x1_0000_0000_0000_0000 / 0x100_0000_0000_0000
  }

  /** A byte leaves: the ends have the same top byte, or they are so close that the part beyond the next multiple of
      2^48 is given up first. */
  ghost predicate LosesTopByte(s: Interval, t: Interval) {
    && t.low == s.low * 0x100 % 0x1_0000_0000_0000_0000
    && if SameTopByte(s) then t.range == s.range * 0x100 % 0x1_0000_0000_0000_0000
       else
         && s.range < 0x1_0000_0000_0000
         && t.range == (0x1_0000_0000_0000_0000 - s.low) % 0x1_0000_0000_0000 * 0x100
  }

  ghost predicate MayStop(s: Interval) {
    !SameTopByte(s) && s.range >= 0x1_0000_0000_0000
  }

  /** The intervals from one symbol to the next, and the byte each of them but the last gives up. */
  ghost predicate Renormalises(path: seq<Interval>, bytes: seq<byte>) {
    && |path| == |bytes| + 1 && MayStop(path[|bytes|])
    && forall i :: 0 <= i < |bytes| ==>
         LosesTopByte(path[i], path[i + 1]) && bytes[i] == path[i].low / 0x100_0000_0000_0000
  }

  lemma StepWrittenOut(s: Interval)
    requires 1 <= s.range
    ensures NormalizeStep(s.low, s.range).0 <==> !MayStop(s)
    ensures NormalizeStep(s.low, s.range).0 ==>
              LosesTopByte(s, Shifted(s.low, NormalizeStep(s.low, s.range).1))
  {
    hide BitXor, BitAnd;
    NormalizeStepByQuotients(s.low, s.range);
    var cut := (0x1_0000_0000_0000_0000 - s.low) % 0x1_0000_0000_0000;
    assert cut * 0x100 % 0x1_0000_0000_0000_0000 == cut * 0x100;
  }

  lemma {:induction false} RenormPath(s: Interval) returns (path: seq<Interval>)
    requires 1 <= s.range
    ensures Renormalises(path, Renorm(s).1) && path[0] == s && path[|Renorm(s).1|] == Renorm(s).0
    decreases |Renorm(s).1|
  {
    hide NormalizeStep, LosesTopByte, MayStop;
    StepWrittenOut(s);
    if NormalizeStep(s.low, s.range).0 {
      var t := Shifted(s.low, NormalizeStep(s.low, s.range).1);
      RenormTurn(s);
      var rest := RenormPath(t);
      path := [s] + rest;
    } else {
      RenormStops(s);
      path := [s];
    }
  }

  /** Encoding a symbol narrows by quotient and product, and then gives up bytes until the interval is wide again. */
  lemma EncodeStepWrittenOut(s: Interval, slot: Slot) returns (path: seq<Interval>)
    requires CanEncode(s, slot)
    ensures Renormalises(path, EncodeStep(s, slot).1) && path[|EncodeStep(s, slot).1|] == EncodeStep(s, slot).0
    ensures path[0].low == (s.low + s.range / slot.total * slot.cum) % 0x1_0000_0000_0000_0000
    ensures path[0].range == s.range / slot.total * slot.freq
  {
    hide Renorm, Renormalises;
    path := RenormPath(Narrowed(s, slot));
    NarrowedWrittenOut(s, slot);
  }

  lemma NarrowedWrittenOut(s: Interval, slot: Slot)
    requires CanEncode(s, slot)
    ensures Narrowed(s, slot).low == (s.low + s.range / slot.total * slot.cum) % 0x1_0000_0000_0000_0000
    ensures Narrowed(s, slot).range == s.range / slot.total * slot.freq
  {
    CanEncodeIff(s, slot);
    NarrowFits(s, Unit(s, slot), slot);
    SmallModulo(Unit(s, slot) * slot.cum);
  }

  lemma SmallModulo(x: nat)
    requires x < WORD
    ensures x % WORD == x
  {
  }

  // ----- the bytes as a number -----

  /** Whatever follows: the first eight bytes of an encoding are a number in the first symbol's share of 2^64 - 1. */
  lemma FirstBytesInSlot(slot: Slot, rest: seq<Slot>)
    requires AllValid([slot] + rest)
    ensures Ready(WHOLE) && slot.total > 0
    ensures var unit, code := 0xffff_ffff_ffff_ffff / slot.total, Word8(Emitted(WHOLE, [slot] + rest));
            unit * slot.cum <= code < unit * (slot.cum + slot.freq)
  {
    hide Emitted, Word8, NormalizeStep, Validate;
    WholeIsReady();
    assert ([slot] + rest)[0] == slot;
    AcceptedTriples(slot);
    NextBytesInSlot(WHOLE, [slot] + rest);
  }

  /** The same of any later symbol: what is still written begins with a number in its share of the interval. */
  lemma NextBytesInSlot(s: Interval, slots: seq<Slot>)
    requires Ready(s) && AllValid(slots) && slots != []
    ensures slots[0].total > 0
    ensures var slot, unit, code := slots[0], s.range / slots[0].total, Word8(Emitted(s, slots));
            s.low + unit * slot.cum <= code < s.low + unit * (slot.cum + slot.freq)
  {
    hide Emitted, Word8, Renorm;
    NextSlotInside(s, slots);
    ShareWrittenOut(s, slots[0], Word8(Emitted(s, slots)));
  }

  lemma ShareWrittenOut(s: Interval, slot: Slot, code: nat)
    requires Ready(s) && Validate(slot) && Inside(Narrowed(s, slot), code)
    ensures slot.total > 0
    ensures var unit := s.range / slot.total;
            s.low + unit * slot.cum <= code < s.low + unit * (slot.cum + slot.freq)
  {
    hide Ready, Narrowed;
    NarrowedWrittenOut(s, slot);
    UnitWidth(s, slot.total);
    WithoutWrap(s, s.range / slot.total, slot);
  }

  lemma WithoutWrap(s: Interval, unit: u64, slot: Slot)
    requires Ready(s) && Validate(slot) && 1 <= unit && unit * slot.total <= s.range
    ensures (s.low + unit * slot.cum) % 0x1_0000_0000_0000_0000 == s.low + unit * slot.cum
    ensures unit * (slot.cum + slot.freq) == unit * slot.cum + unit * slot.freq
  {
    hide NormalizeStep;
    NarrowFits(s, unit, slot);
    SmallModulo(unit * slot.cum);
  }

  // ----- decoding -----

  /** The value found is the one whose unit the code lies in; there is an error exactly when there is none. */
  lemma ValueFound(d: DecoderState, total: u64, v: nat)
    requires DecoderInv(d)
    ensures DecodeFreq(d, total).1 == Ok(v) <==>
            && d.pending.None? && 0 < total < 0x8000_0000 && d.range / total >= 1 && v < total
            && v * (d.range / total) <= (d.code - d.low) % 0x1_0000_0000_0000_0000 < (v + 1) * (d.range / total)
    ensures DecodeFreq(d, total).1.Ok? ==>
              DecodeFreq(d, total).0 == d.(pending := Some(Pending(d.range / total, total)))
    ensures DecodeFreq(d, total).1.Err? ==> DecodeFreq(d, total) == (d, Err(InvalidFrequency))
  {
    if d.pending.None? && 0 < total < 0x8000_0000 && d.range / total >= 1 {
      QuotientBetween((d.code - d.low) % 0x1_0000_0000_0000_0000, d.range / total, v);
    }
  }

  lemma QuotientBetween(x: nat, unit: nat, v: nat)
    requires unit > 0
    ensures x / unit == v <==> v * unit <= x < (v + 1) * unit
  {
    var q := x / unit;
    assert x == unit * q + x % unit;
    assert q * unit == unit * q && (q + 1) * unit == unit * q + unit;
    if q < v {
      ProductMonotone(unit, q + 1, v);
      assert unit * (q + 1) == (q + 1) * unit && unit * v == v * unit;
    } else if v < q {
      ProductMonotone(unit, v + 1, q);
      assert unit * (v + 1) == (v + 1) * unit && unit * q == q * unit;
    }
  }

  /** A byte comes in for each that leaves. */
  ghost predicate TakesIn(code: u64, b: byte, code': u64) {
    code' == code % 0x100_0000_0000_0000 * 0x100 + b
  }

  /** The decoder's way through the same intervals: it takes in the input's next bytes. */
  ghost predicate ReadsAlong(path: seq<Interval>, codes: seq<u64>, input: seq<byte>, pos: nat) {
    && |path| == |codes| > 0 && pos + |codes| - 1 <= |input|
    && forall i :: 0 <= i < |codes| - 1 ==>
         LosesTopByte(path[i], path[i + 1]) && TakesIn(codes[i], input[pos + i], codes[i + 1])
  }

  lemma {:induction false} DecoderPath(d: DecoderState, input: seq<byte>)
    returns (path: seq<Interval>, codes: seq<u64>)
    requires DecoderInv(d) && d.pending.None? && d.pos <= |input|
    ensures ReadsAlong(path, codes, input, d.pos) && path[0] == Interval(d.low, d.range) && codes[0] == d.code
    ensures var (e, more), n := DecoderRenorm(d, input), |codes| - 1;
            && e.pos == d.pos + n && e.code == codes[n] && e.low == path[n].low && e.pending.None?
            && (if more then MayStop(path[n]) && e.range == path[n].range
                else !MayStop(path[n]) && e.pos == |input|)
    decreases |input| - d.pos
  {
    hide NormalizeStep, LosesTopByte, MayStop, DecoderInv;
    var s := Interval(d.low, d.range);
    NotEmpty(d);
    StepWrittenOut(s);
    if !NormalizeStep(d.low, d.range).0 {
      DecoderStops(d, input);
      path, codes := [s], [d.code];
    } else {
      DecoderRenormTurn(d, input);
      if d.pos >= |input| {
        path, codes := [s], [d.code];
      } else {
        var t := Shifted(d.low, NormalizeStep(d.low, d.range).1);
        var code := ShiftIn(d.code, input[d.pos]);
        ShiftedWord(d.code);
        var next := DecoderState(t.low, code, t.range, None, d.pos + 1);
        StillGood(next);
        var path', codes' := DecoderPath(next, input);
        path, codes := [s] + path', [d.code] + codes';
        assert ReadsAlong(path, codes, input, d.pos);
      }
    }
  }

  lemma NotEmpty(d: DecoderState)
    requires DecoderInv(d)
    ensures 1 <= d.range
  {
  }

  lemma StillGood(d: DecoderState)
    requires Inv(Interval(d.low, d.range)) && d.pending.None?
    ensures DecoderInv(d)
  {
  }

  lemma DecoderStops(d: DecoderState, input: seq<byte>)
    requires DecoderInv(d) && d.pending.None? && !NormalizeStep(d.low, d.range).0
    ensures DecoderRenorm(d, input) == (d, true)
  {
    RenormStops(Interval(d.low, d.range));
  }

  /** Advancing narrows by the unit that was pending, and then takes in bytes until the interval is wide again or none
      is left. Anything else than the triple that was asked for is refused. */
  lemma AdvanceWrittenOut(d: DecoderState, slot: Slot, input: seq<byte>)
    returns (path: seq<Interval>, codes: seq<u64>)
    requires DecoderInv(d) && d.pos <= |input|
    ensures !Validate(slot) || d.pending.None? || d.pending.value.total != slot.total ==>
              Advance(d, slot, input) == (d, Err(InvalidFrequency))
    ensures Validate(slot) && d.pending.Some? && d.pending.value.total == slot.total ==>
              var (e, done), n := Advance(d, slot, input), |codes| - 1;
              && ReadsAlong(path, codes, input, d.pos) && codes[0] == d.code
              && path[0].low == d.low + d.pending.value.unit * slot.cum
              && path[0].range == d.pending.value.unit * slot.freq
              && e.pos == d.pos + n && e.code == codes[n] && e.low == path[n].low && e.pending.None?
              && (if MayStop(path[n]) then done == Ok(()) && e.range == path[n].range
                  else done == Err(UnexpectedEof) && e.pos == |input|)
  {
    hide DecoderRenorm, ReadsAlong, MayStop;
    if Validate(slot) && d.pending.Some? && d.pending.value.total == slot.total {
      var s := Narrow(Interval(d.low, d.range), d.pending.value.unit, slot);
      NarrowFits(Interval(d.low, d.range), d.pending.value.unit, slot);
      var next := DecoderState(s.low, d.code, s.range, None, d.pos);
      StillGood(next);
      path, codes := DecoderPath(next, input);
    } else {
      path, codes := [], [];
    }
  }
}
