/** What the encoder writes, and why a decoder reading it takes the same steps. */
module RangeTheorems {
  import opened Bits
  import opened Outcomes
  import opened RangeCoder

  ghost predicate AllValid(slots: seq<Slot>) {
    forall i :: 0 <= i < |slots| ==> Validate(slots[i])
  }

  /** Once a slot is encoded the state is wide enough for any other. */
  ghost predicate CanEncodeAll(s: Interval, slots: seq<Slot>) {
    AllValid(slots) && (slots != [] ==> CanEncode(s, slots[0]))
  }

  /** The state after encoding all slots. */
  function After(s: Interval, slots: seq<Slot>): (r: Interval)
    requires CanEncodeAll(s, slots)
    ensures Ready(s) ==> Ready(r)
    ensures slots != [] ==> r.range >= BOTTOM
    decreases |slots|
  {
    if slots == [] then s else After(EncodeStep(s, slots[0]).0, slots[1..])
  }

  /** The bytes written while encoding all slots, before `Finish`. */
  function Written(s: Interval, slots: seq<Slot>): seq<byte>
    requires CanEncodeAll(s, slots)
    decreases |slots|
  {
    if slots == [] then []
    else EncodeStep(s, slots[0]).1 + Written(EncodeStep(s, slots[0]).0, slots[1..])
  }

  /** Everything the encoder still writes from state s: the slots, then the final eight bytes. */
  function Emitted(s: Interval, slots: seq<Slot>): (r: seq<byte>)
    requires CanEncodeAll(s, slots)
    ensures |r| >= 8
    decreases |slots|
  {
    if slots == [] then TopBytes(s.low, 8)
    else EncodeStep(s, slots[0]).1 + Emitted(EncodeStep(s, slots[0]).0, slots[1..])
  }

  /** A snapshot carried on over some slots. */
  function Carried(from: Snapshot, slots: seq<Slot>): Snapshot
    requires CanEncodeAll(StateOf(from), slots)
  {
    var s := After(StateOf(from), slots);
    Snapshot(s.low, s.range, from.out + Written(StateOf(from), slots))
  }

  lemma {:induction false} EmittedIsWrittenThenLow(s: Interval, slots: seq<Slot>)
    requires CanEncodeAll(s, slots)
    ensures Emitted(s, slots) == Written(s, slots) + TopBytes(After(s, slots).low, 8)
    decreases |slots|
  {
    if slots != [] {
      EmittedIsWrittenThenLow(EncodeStep(s, slots[0]).0, slots[1..]);
    }
  }

  /** Encoding in two parts, as a snapshot and a restored encoder do. */
  lemma {:induction false} EncodeInParts(s: Interval, first: seq<Slot>, rest: seq<Slot>)
    requires CanEncodeAll(s, first) && CanEncodeAll(After(s, first), rest)
    ensures CanEncodeAll(s, first + rest)
    ensures After(s, first + rest) == After(After(s, first), rest)
    ensures Written(s, first + rest) == Written(s, first) + Written(After(s, first), rest)
    ensures Emitted(s, first + rest) == Written(s, first) + Emitted(After(s, first), rest)
    decreases |first|
  {
    if first == [] {
      assert first + rest == rest;
    } else {
      var (t, out) := EncodeStep(s, first[0]);
      EncodeFirst(s, first, rest);
      EncodeInParts(t, first[1..], rest);
      AppendAssociates(out, Written(t, first[1..]), Written(After(s, first), rest));
      AppendAssociates(out, Written(t, first[1..]), Emitted(After(s, first), rest));
    }
  }

  lemma AppendAssociates(a: seq<byte>, b: seq<byte>, c: seq<byte>)
    ensures a + (b + c) == (a + b) + c
  {
  }

  /** A snapshot carried on twice. */
  lemma CarriedInParts(from: Snapshot, first: seq<Slot>, rest: seq<Slot>)
    requires CanEncodeAll(StateOf(from), first) && CanEncodeAll(StateOf(Carried(from, first)), rest)
    ensures CanEncodeAll(StateOf(from), first + rest)
    ensures Carried(from, first + rest) == Carried(Carried(from, first), rest)
  {
    hide CanEncodeAll, After, Written;
    EncodeInParts(StateOf(from), first, rest);
    AppendAssociates(from.out, Written(StateOf(from), first), Written(StateOf(Carried(from, first)), rest));
  }

  lemma EncodeFirst(s: Interval, first: seq<Slot>, rest: seq<Slot>)
    requires CanEncodeAll(s, first) && AllValid(rest) && first != []
    ensures CanEncodeAll(s, first + rest)
    ensures CanEncodeAll(EncodeStep(s, first[0]).0, first[1..] + rest)
    ensures var (t, out) := EncodeStep(s, first[0]);
            && After(s, first + rest) == After(t, first[1..] + rest)
            && Written(s, first + rest) == out + Written(t, first[1..] + rest)
            && Emitted(s, first + rest) == out + Emitted(t, first[1..] + rest)
  {
    assert (first + rest)[1..] == first[1..] + rest;
  }

  // ----- eight bytes as a word -----

  function Word8(s: seq<byte>): (w: u64)
    requires |s| >= 8
  {
    var high: nat := ((s[0] as nat * 0x100 + s[1]) * 0x100 + s[2]) * 0x100 + s[3];
    var tail: nat := ((s[4] as nat * 0x100 + s[5]) * 0x100 + s[6]) * 0x100 + s[7];
    high * 0x1_0000_0000 + tail
  }

  lemma PrependByte(b: byte, tail: seq<byte>)
    requires |tail| >= 8
    ensures Word8([b] + tail) == b * 0x100_0000_0000_0000 + Word8(tail) / 0x100
  {
  }

  lemma WordRemainder(q: nat, r: nat)
    requires r < WORD
    ensures (q * 0x1_0000_0000_0000_0000 + r) % 0x1_0000_0000_0000_0000 == r
  {
  }

  lemma ShiftWindow(w: seq<byte>)
    requires |w| >= 9
    ensures ShiftIn(Word8(w), w[8]) == Word8(w[1..])
  {
    var rest := Word8(w[1..]) - w[8];
    assert 0 <= rest && Word8(w) * 0x100 == w[0] * 0x1_0000_0000_0000_0000 + rest;
    WordRemainder(w[0], rest);
  }

  lemma LoadedCode(w: seq<byte>)
    requires |w| == 8
    ensures LoadCode(0, w) == Word8(w)
  {
    LoadTail(0, w, 0);
  }

  /** Shifting in the last bytes of w over a code that holds the first i. */
  lemma {:induction false} LoadTail(code: u64, w: seq<byte>, i: nat)
    requires |w| == 8 && i <= 8 && code == Leading(w, i)
    ensures LoadCode(code, w[i..]) == Word8(w)
    decreases 8 - i
  {
    if i < 8 {
      assert w[i..][1..] == w[i + 1..];
      LeadingBound(w, i);
      LoadTail(ShiftIn(code, w[i]), w, i + 1);
    } else {
      LeadingAll(w);
    }
  }

  function Leading(w: seq<byte>, i: nat): nat
    requires i <= |w|
  {
    if i == 0 then 0 else Leading(w, i - 1) * 0x100 + w[i - 1] as nat
  }

  lemma LeadingBound(w: seq<byte>, i: nat)
    requires |w| == 8 && i < 8
    ensures Leading(w, i) < 0x100_0000_0000_0000
  {
    assert Leading(w, 0) == 0;
    assert i >= 1 ==> Leading(w, 1) < 0x100;
    assert i >= 2 ==> Leading(w, 2) < 0x1_0000;
    assert i >= 3 ==> Leading(w, 3) < 0x100_0000;
    assert i >= 4 ==> Leading(w, 4) < 0x1_0000_0000;
    assert i >= 5 ==> Leading(w, 5) < 0x100_0000_0000;
    assert i >= 6 ==> Leading(w, 6) < 0x1_0000_0000_0000;
  }

  lemma LeadingAll(w: seq<byte>)
    requires |w| == 8
    ensures Leading(w, 8) == Word8(w)
  {
    assert Leading(w, 1) == w[0];
    assert Leading(w, 2) == w[0] as nat * 0x100 + w[1];
    assert Leading(w, 4) == Leading(w, 2) * 0x1_0000 + w[2] as nat * 0x100 + w[3];
    assert Leading(w, 6) == Leading(w, 4) * 0x1_0000 + w[4] as nat * 0x100 + w[5];
    assert Leading(w, 8) == Leading(w, 6) * 0x1_0000 + w[6] as nat * 0x100 + w[7];
  }

  /** What one shift drops is the top byte. */
  lemma DroppedByte(x: u64)
    ensures x * 0x100 - x * 0x100 % 0x1_0000_0000_0000_0000 == x / 0x100_0000_0000_0000 * 0x1_0000_0000_0000_0000
  {
  }

  lemma TopBytesWord(low: u64)
    ensures Word8(TopBytes(low, 8)) == low
  {
    var x1 := low * 0x100 % WORD;
    var x2 := x1 * 0x100 % WORD;
    var x3 := x2 * 0x100 % WORD;
    var x4 := x3 * 0x100 % WORD;
    var x5 := x4 * 0x100 % WORD;
    var x6 := x5 * 0x100 % WORD;
    var x7 := x6 * 0x100 % WORD;
    var w: seq<byte> := [low / TOP, x1 / TOP, x2 / TOP, x3 / TOP, x4 / TOP, x5 / TOP, x6 / TOP, x7 / TOP];
    assert TopBytes(low, 8) == w by {
      assert TopBytes(x4, 4) == w[4..];
      assert TopBytes(x2, 6) == w[2..4] + w[4..];
    }
    DroppedByte(low);
    DroppedByte(x1);
    DroppedByte(x2);
    DroppedByte(x3);
    DroppedByte(x4);
    DroppedByte(x5);
    DroppedByte(x6);
    DroppedByte(x7);
  }

  // ----- the bytes still to come lie inside the interval -----

  ghost predicate Inside(s: Interval, code: nat) {
    s.low <= code < s.low + s.range
  }

  lemma InsideBeforeShift(s: Interval, cut: u64, later: nat)
    requires s.low % TOP * 0x100 <= later < s.low % TOP * 0x100 + cut * 0x100 && cut <= s.range
    ensures Inside(s, s.low / TOP * 0x100_0000_0000_0000 + later / 0x100)
  {
  }

  lemma {:induction false} RenormKeepsInside(s: Interval, tail: seq<byte>)
    requires Inv(s) && |tail| >= 8 && Inside(Renorm(s).0, Word8(tail))
    ensures Inside(s, Word8(Renorm(s).1 + tail))
    decreases s.low + s.range < WORD, WORD - s.range
  {
    hide NormalizeStep, Word8, Renorm;
    if NormalizeStep(s.low, s.range).0 {
      var t := Shifted(s.low, NormalizeStep(s.low, s.range).1);
      var b: byte := s.low / TOP;
      RenormTurn(s);
      StepKeepsInv(s);
      RenormKeepsInside(t, tail);
      var later := Renorm(t).1 + tail;
      assert Renorm(s).1 + tail == [b] + later;
      PrependByte(b, later);
      InsideBeforeShift(s, NormalizeStep(s.low, s.range).1, Word8(later));
    } else {
      NormalizeStepByQuotients(s.low, s.range);
      RenormStops(s);
      assert Renorm(s).1 + tail == tail;
    }
  }

  /** The first eight bytes an encoder still writes always lie inside its current interval. */
  lemma {:induction false} EmittedInside(s: Interval, slots: seq<Slot>)
    requires Ready(s) && AllValid(slots)
    ensures Inside(s, Word8(Emitted(s, slots)))
    decreases |slots|, 1
  {
    if slots == [] {
      TopBytesWord(s.low);
    } else {
      NextSlotInside(s, slots);
    }
  }

  lemma NarrowedInside(s: Interval, slot: Slot, code: nat)
    requires Ready(s) && Validate(slot) && Inside(Narrowed(s, slot), code)
    ensures Inside(s, code)
  {
    UnitWidth(s, slot.total);
    NarrowFits(s, s.range / slot.total, slot);
  }

  /** ... and inside the part of it that the next slot narrows to. */
  lemma {:induction false} NextSlotInside(s: Interval, slots: seq<Slot>)
    requires Ready(s) && AllValid(slots) && slots != []
    ensures Inside(Narrowed(s, slots[0]), Word8(Emitted(s, slots)))
    ensures Inside(s, Word8(Emitted(s, slots)))
    decreases |slots|, 0
  {
    var n := Narrowed(s, slots[0]);
    EmittedInside(Renorm(n).0, slots[1..]);
    RenormKeepsInside(n, Emitted(Renorm(n).0, slots[1..]));
    NarrowedInside(s, slots[0], Word8(Emitted(s, slots)));
  }

  /** A code inside the slot's part of the interval yields a frequency inside the slot. */
  lemma FreqInSlot(s: Interval, slot: Slot, code: u64, pos: nat)
    requires Ready(s) && Validate(slot) && Inside(Narrowed(s, slot), code)
    ensures var (e, value) := DecodeFreq(DecoderState(s.low, code, s.range, None, pos), slot.total);
            && value.Ok? && slot.cum <= value.value < slot.cum + slot.freq
            && e == DecoderState(s.low, code, s.range, Some(Pending(s.range / slot.total, slot.total)), pos)
  {
    hide Narrowed, Inside;
    UnitWidth(s, slot.total);
    NarrowedValue(s, slot, code);
    assert (code - s.low) % WORD == code - s.low;
  }

  lemma NarrowedValue(s: Interval, slot: Slot, code: u64)
    requires Ready(s) && Validate(slot) && Inside(Narrowed(s, slot), code)
    ensures s.low <= code && 1 <= s.range / slot.total
    ensures slot.cum <= (code - s.low) / (s.range / slot.total) < slot.cum + slot.freq
  {
    UnitWidth(s, slot.total);
    var unit := s.range / slot.total;
    NarrowFits(s, unit, slot);
    DivideBetween(code - s.low, unit, slot.cum, slot.freq);
  }

  lemma DivideBetween(offset: nat, unit: nat, cum: nat, freq: nat)
    requires unit > 0 && unit * cum <= offset < unit * cum + unit * freq
    ensures cum <= offset / unit < cum + freq
  {
    var q := offset / unit;
    assert offset == unit * q + offset % unit;
    assert unit * (q + 1) == unit * q + unit;
    assert unit * (cum + freq) == unit * cum + unit * freq;
    if q < cum {
      ProductMonotone(unit, q + 1, cum);
    }
    if cum + freq <= q {
      ProductMonotone(unit, cum + freq, q);
    }
  }

  // ----- a decoder reads a byte wherever the encoder wrote one -----

  /** The decoder that mirrors an encoder in state s, having read the first pos bytes of input. */
  function Mirror(s: Interval, input: seq<byte>, pos: nat): (d: DecoderState)
    requires Inv(s) && 8 <= pos <= |input|
    ensures DecoderInv(d)
  {
    DecoderState(s.low, Word8(input[pos - 8..]), s.range, None, pos)
  }

  lemma {:induction false} RenormMirrored(s: Interval, input: seq<byte>, pos: nat)
    requires Inv(s) && 8 <= pos <= |input|
    ensures var r, t, n := DecoderRenorm(Mirror(s, input, pos), input), Renorm(s).0, pos + |Renorm(s).1|;
            if n <= |input| then r == (Mirror(t, input, n), true) else !r.1
    decreases s.low + s.range < WORD, WORD - s.range
  {
    var d := Mirror(s, input, pos);
    if NormalizeStep(s.low, s.range).0 {
      var t := Shifted(s.low, NormalizeStep(s.low, s.range).1);
      RenormTurn(s);
      DecoderRenormTurn(d, input);
      if pos < |input| {
        ShiftWindow(input[pos - 8..]);
        assert input[pos - 8..][1..] == input[pos - 7..];
        RenormMirrored(t, input, pos + 1);
      }
    } else {
      NormalizeStepByQuotients(s.low, s.range);
    }
  }

  lemma OpenedMirrors(input: seq<byte>)
    requires |input| >= 8
    ensures Ready(WHOLE)
    ensures DecoderNew(input) == Ok(Mirror(WHOLE, input, 8))
  {
    WholeIsReady();
    LoadedCode(input[..8]);
  }

  /** Decoding a frequency and advancing by the slot it lies in mirrors one encoder step. */
  lemma StepMirrored(s: Interval, slot: Slot, input: seq<byte>, pos: nat)
    requires Ready(s) && Validate(slot) && 8 <= pos <= |input|
    requires Inside(Narrowed(s, slot), Word8(input[pos - 8..]))
    ensures Stepped(s, slot, input, pos)
  {
    FreqInSlot(s, slot, Word8(input[pos - 8..]), pos);
    RenormMirrored(Narrowed(s, slot), input, pos);
  }

  /** The mirroring decoder finds a value in the slot, and advancing by the slot either mirrors the encoder or runs out
      of input. */
  ghost predicate Stepped(s: Interval, slot: Slot, input: seq<byte>, pos: nat)
    requires Ready(s) && Validate(slot) && 8 <= pos <= |input|
  {
    var (e, value) := DecodeFreq(Mirror(s, input, pos), slot.total);
    var (t, out) := EncodeStep(s, slot);
    var n := pos + |out|;
    && value.Ok? && slot.cum <= value.value < slot.cum + slot.freq
    && (if n <= |input| then Advance(e, slot, input) == (Mirror(t, input, n), Ok(()))
        else Advance(e, slot, input).1 == Err(UnexpectedEof))
  }

  /** One symbol, decoded from an input that may be the encoding, a prefix of it or an extension of it. */
  lemma DecodeStepFollows(s: Interval, slots: seq<Slot>, full: seq<byte>, input: seq<byte>, pos: nat)
    requires Ready(s) && AllValid(slots) && slots != []
    requires 8 <= pos <= |full| && full[pos - 8..] == Emitted(s, slots)
    requires pos <= |input| && (input <= full || full <= input)
    ensures Stepped(s, slots[0], input, pos)
    ensures var (t, out) := EncodeStep(s, slots[0]);
            && pos + |out| <= |full| && full[pos + |out| - 8..] == Emitted(t, slots[1..])
  {
    NextSlotInside(s, slots);
    assert Word8(input[pos - 8..]) == Word8(full[pos - 8..]);
    StepMirrored(s, slots[0], input, pos);
    EmittedTail(s, slots, full, pos);
  }

  lemma EmittedTail(s: Interval, slots: seq<Slot>, full: seq<byte>, pos: nat)
    requires Ready(s) && AllValid(slots) && slots != []
    requires 8 <= pos <= |full| && full[pos - 8..] == Emitted(s, slots)
    ensures var (t, out) := EncodeStep(s, slots[0]);
            && pos + |out| <= |full| && full[pos + |out| - 8..] == Emitted(t, slots[1..])
  {
    var (t, out) := EncodeStep(s, slots[0]);
    var tail := Emitted(t, slots[1..]);
    assert full[pos - 8..] == out + tail;
    hide EncodeStep, Emitted, Inv, Validate;
    RestBehind(full, pos - 8, out, tail);
  }

  lemma RestBehind(full: seq<byte>, from: nat, out: seq<byte>, tail: seq<byte>)
    requires from <= |full| && full[from..] == out + tail
    ensures from + |out| <= |full| && full[from + |out|..] == tail
  {
    assert full[from + |out|..] == full[from..][|out|..];
  }

  // ----- whole runs -----

  /** The frequencies a decoder finds when it is advanced by the given slots, and where it stops. */
  function DecodeRun(d: DecoderState, slots: seq<Slot>, input: seq<byte>): Result<(DecoderState, seq<u64>), RangeError>
    requires DecoderInv(d)
    decreases |slots|
  {
    if slots == [] then Ok((d, []))
    else
      var (e, value) := DecodeFreq(d, slots[0].total);
      if value.Err? then Err(value.error)
      else
        var (t, done) := Advance(e, slots[0], input);
        if done.Err? then Err(done.error)
        else
          var (last, values) :- DecodeRun(t, slots[1..], input);
          Ok((last, [value.value] + values))
  }

  ghost predicate Hits(slots: seq<Slot>, values: seq<u64>) {
    && |values| == |slots|
    && forall i :: 0 <= i < |slots| ==> slots[i].cum <= values[i] < slots[i].cum + slots[i].freq
  }

  lemma WholeIsReady()
    ensures Ready(WHOLE)
  {
    NormalizeStepByQuotients(WHOLE.low, WHOLE.range);
  }

  lemma NothingToRun(s: Interval, full: seq<byte>, input: seq<byte>, pos: nat)
    requires Ready(s) && 8 <= pos <= |full| && pos <= |input| && full[pos - 8..] == Emitted(s, [])
    ensures |full| == pos && After(s, []) == s
    ensures DecodeRun(Mirror(s, input, pos), [], input) == Ok((Mirror(s, input, pos), [])) && Hits([], [])
  {
  }

  lemma DecodeRunTurn(d: DecoderState, slots: seq<Slot>, input: seq<byte>)
    requires DecoderInv(d) && slots != []
    ensures var (e, value) := DecodeFreq(d, slots[0].total);
            && DecoderInv(e)
            && var (t, done) := Advance(e, slots[0], input);
            && DecoderInv(t)
            && DecodeRun(d, slots, input) ==
               (if value.Err? then Err(value.error) else if done.Err? then Err(done.error)
                else
                  var rest := DecodeRun(t, slots[1..], input);
                  if rest.Err? then Err(rest.error) else Ok((rest.value.0, [value.value] + rest.value.1)))
    ensures forall first: u64, values: seq<u64> ::
              slots[0].cum <= first < slots[0].cum + slots[0].freq && Hits(slots[1..], values) ==>
                Hits(slots, [first] + values)
  {
    hide DecodeFreq, Advance, DecoderInv;
  }

  lemma {:induction false} RunFollows(s: Interval, slots: seq<Slot>, full: seq<byte>, input: seq<byte>, pos: nat)
    requires Ready(s) && AllValid(slots)
    requires 8 <= pos <= |full| && full[pos - 8..] == Emitted(s, slots)
    requires pos <= |input| && (input <= full || full <= input)
    ensures var run := DecodeRun(Mirror(s, input, pos), slots, input);
            if |full| <= |input| then
              run.Ok? && run.value.0 == Mirror(After(s, slots), input, |full|) && Hits(slots, run.value.1)
            else run == Err(UnexpectedEof)
    decreases |slots|
  {
    hide EncodeStep, DecodeFreq, Advance, Inv, Validate, Word8, DecodeRun, Emitted, Hits, DecoderInv;
    if slots == [] {
      NothingToRun(s, full, input, pos);
    } else {
      DecodeStepFollows(s, slots, full, input, pos);
      DecodeRunTurn(Mirror(s, input, pos), slots, input);
      var (t, out) := EncodeStep(s, slots[0]);
      if pos + |out| <= |input| {
        RunFollows(t, slots[1..], full, input, pos + |out|);
      }
    }
  }

  /** Decoding what `Finish` returns finds every slot, meets no error, and reads every byte. */
  lemma RoundTrip(slots: seq<Slot>)
    requires AllValid(slots)
    ensures Ready(WHOLE)
    ensures var bytes := Emitted(WHOLE, slots);
            && DecoderNew(bytes).Ok?
            && var run := DecodeRun(DecoderNew(bytes).value, slots, bytes);
            && run.Ok? && run.value.0.pos == |bytes| && Hits(slots, run.value.1)
  {
    WholeIsReady();
    var bytes := Emitted(WHOLE, slots);
    OpenedMirrors(bytes);
    assert bytes[0..] == bytes;
    RunFollows(WHOLE, slots, bytes, bytes, 8);
  }

  // ----- how much is written -----

  /** 256^j, for the j bytes a symbol may shift out. */
  function Bytes(j: nat): nat
    requires j <= 6
  {
    if j == 0 then 1
    else if j == 1 then 0x100
    else if j == 2 then 0x1_0000
    else if j == 3 then 0x100_0000
    else if j == 4 then 0x1_0000_0000
    else if j == 5 then 0x100_0000_0000
    else 0x1_0000_0000_0000
  }

  /** After j bytes of a symbol, `low` ends in j zero bytes, and either the range has grown
      by as much or it was truncated to end at 2^64 and is a positive multiple of 256^j. */
  ghost predicate Shrunk(s: Interval, j: nat)
    requires j <= 6
  {
    && Inv(s)
    && s.low % Bytes(j) == 0
    && (if s.low + s.range == WORD then s.range >= Bytes(j) else j <= 5 && s.range >= 0x2_0000 * Bytes(j))
  }

  lemma {:induction false} RenormAtMostSix(s: Interval, j: nat)
    requires j <= 6 && Shrunk(s, j)
    ensures |Renorm(s).1| <= 6 - j
    decreases 6 - j
  {
    if NormalizeStep(s.low, s.range).0 {
      NormalizeStepByQuotients(s.low, s.range);
      RenormTurn(s);
      StepKeepsInv(s);
      TurnShrinks(s, j);
      RenormAtMostSix(Shifted(s.low, NormalizeStep(s.low, s.range).1), j + 1);
    }
  }

  lemma TurnShrinks(s: Interval, j: nat)
    requires j <= 6 && Shrunk(s, j) && NormalizeStep(s.low, s.range).0
    ensures j < 6 && Shrunk(Shifted(s.low, NormalizeStep(s.low, s.range).1), j + 1)
  {
    NormalizeStepByQuotients(s.low, s.range);
    StepKeepsInv(s);
    hide NormalizeStep;
    if Settled(s.low, s.range) {
      SettledStep(s);
      assert j <= 4;
      ZerosShift(s.low, j);
    } else {
      TruncatedStep(s);
      assert j <= 5;
      ZerosShift(s.low, j);
      TruncatedMultiple(s.low, j);
    }
  }

  /** 2^56 and 2^48 are multiples of the powers used here. */
  lemma BytesDivide(j: nat)
    requires j <= 5
    ensures Bytes(j) * (TOP / Bytes(j)) == TOP && TOP / Bytes(j) > 0
    ensures Bytes(j) * (BOTTOM / Bytes(j)) == BOTTOM && BOTTOM / Bytes(j) > 0
    ensures WORD % Bytes(j) == 0
    ensures Bytes(j + 1) == 0x100 * Bytes(j)
  {
  }

  lemma ZerosShift(low: u64, j: nat)
    requires j <= 5 && low % Bytes(j) == 0
    ensures low % TOP * 0x100 % Bytes(j + 1) == 0
    ensures Bytes(j + 1) == 0x100 * Bytes(j)
  {
    BytesDivide(j);
    RemainderKeepsMultiple(low, Bytes(j), TOP / Bytes(j));
    ScaledMultiple(low % TOP, Bytes(j));
  }

  lemma TruncatedMultiple(low: u64, j: nat)
    requires j <= 5 && low % Bytes(j) == 0
    requires (WORD - low) % BOTTOM >= 1
    ensures (WORD - low) % BOTTOM >= Bytes(j)
  {
    BytesDivide(j);
    DifferenceOfMultiples(WORD, low, Bytes(j));
    RemainderKeepsMultiple(WORD - low, Bytes(j), BOTTOM / Bytes(j));
    PositiveMultiple((WORD - low) % BOTTOM, Bytes(j));
  }

  lemma SymbolAtMostSix(s: Interval, slot: Slot)
    requires Ready(s) && Validate(slot)
    ensures |EncodeStep(s, slot).1| <= 6
  {
    UnitWidth(s, slot.total);
    var unit := s.range / slot.total;
    NarrowFits(s, unit, slot);
    ProductAtLeast(slot.freq, unit);
    RenormAtMostSix(Narrowed(s, slot), 0);
  }

  // ----- how much is written after a restart from any snapshot -----

  /** How often an interval that wraps around 2^64 can still shift out a byte without truncation, by its distance to
      the whole range. */
  ghost function WrapsLeft(distance: nat): (r: nat)
    requires distance > 0
    ensures distance >= TOP ==> r == 0
    decreases TOP - distance
  {
    if distance >= TOP then 0 else 1 + WrapsLeft(distance * 0x100)
  }

  lemma {:induction false} WrapsLeftFall(a: nat, b: nat)
    requires 0 < a <= b
    ensures WrapsLeft(b) <= WrapsLeft(a)
    decreases TOP - a
  {
    if b < TOP {
      WrapsLeftFall(a * 0x100, b * 0x100);
    }
  }

  lemma WrapsLeftAtMostSeven(distance: nat)
    requires distance > 0
    ensures WrapsLeft(distance) <= 7
  {
    assert WrapsLeft(0x1_0000_0000_0000) == 1;
    assert WrapsLeft(0x100_0000_0000) == 2;
    assert WrapsLeft(0x1_0000_0000) == 3;
    assert WrapsLeft(0x100_0000) == 4;
    assert WrapsLeft(0x1_0000) == 5;
    assert WrapsLeft(0x100) == 6;
    assert WrapsLeft(1) == 7;
    WrapsLeftFall(1, distance);
  }

  /** What a state may cost beyond six bytes a symbol. */
  ghost function Debt(s: Interval): (r: nat)
    ensures r <= 17
  {
    if !Inv(s) then
      WrapsLeftAtMostSeven(WORD - s.range);
      10 + WrapsLeft(WORD - s.range)
    else if s.range < BOTTOM then 3
    else 0
  }

  lemma ProperAtMostNine(s: Interval)
    requires Inv(s)
    ensures |Renorm(s).1| <= 9
    ensures s.low + s.range == WORD || s.range >= 0x2_0000 ==> |Renorm(s).1| <= 6
  {
    RangeGrows(s, 0);
  }

  /** A range of at least 256^j needs j bytes less. */
  lemma {:induction false} RangeGrows(s: Interval, j: nat)
    requires Inv(s) && j <= 3 && s.range >= Bytes(j)
    ensures |Renorm(s).1| <= 9 - j
    ensures s.low + s.range == WORD || s.range >= 0x2_0000 ==> |Renorm(s).1| <= 6
    decreases 3 - j
  {
    hide NormalizeStep;
    if s.low + s.range == WORD || s.range >= 0x2_0000 {
      RenormAtMostSix(s, 0);
    } else if !NormalizeStep(s.low, s.range).0 {
      RenormStops(s);
    } else {
      var t := Shifted(s.low, NormalizeStep(s.low, s.range).1);
      StepKeepsInv(s);
      RenormTurn(s);
      if t.low + t.range == WORD {
        RenormAtMostSix(t, 0);
      } else {
        RangeGrows(t, if j < 3 then j + 1 else 3);
      }
    }
  }

  /** Renormalising pays its bytes from the debt. */
  lemma {:induction false} RenormPays(s: Interval)
    requires 1 <= s.range
    ensures Inv(s) ==> |Renorm(s).1| <= 9 && Debt(Renorm(s).0) == 0
    ensures !Inv(s) ==> |Renorm(s).1| + Debt(Renorm(s).0) <= Debt(s)
    decreases Unsettled(s)
  {
    hide NormalizeStep;
    if Inv(s) {
      ProperAtMostNine(s);
    } else if !NormalizeStep(s.low, s.range).0 {
      RenormStops(s);
    } else {
      var t := Shifted(s.low, NormalizeStep(s.low, s.range).1);
      RenormTurn(s);
      RenormPays(t);
      WrapPays(s);
    }
  }

  lemma WrapPays(s: Interval)
    requires 1 <= s.range && !Inv(s) && NormalizeStep(s.low, s.range).0
    ensures var t := Shifted(s.low, NormalizeStep(s.low, s.range).1);
            if Inv(t) then 10 <= Debt(s) else 1 + Debt(t) <= Debt(s)
  {
    NormalizeStepByQuotients(s.low, s.range);
    if Settled(s.low, s.range) {
      SettledWrap(s);
    } else {
      TruncatedWrap(s);
    }
  }

  lemma StepPays(s: Interval, slot: Slot)
    requires CanEncode(s, slot)
    ensures |EncodeStep(s, slot).1| + Debt(EncodeStep(s, slot).0) <= 6 + Debt(s)
  {
    hide Renorm, EncodeStep;
    EncodeStepIs(s, slot);
    var n := Narrowed(s, slot);
    RenormPays(n);
    NarrowedKeepsDebt(s, slot);
    if Ready(s) {
      ReadyIsWide(s);
      SymbolAtMostSix(s, slot);
    }
    if Inv(n) && s.range >= BOTTOM {
      ProperAtMostNine(n);
    }
  }

  lemma EncodeStepIs(s: Interval, slot: Slot)
    requires CanEncode(s, slot)
    ensures EncodeStep(s, slot) == Renorm(Narrowed(s, slot))
  {
  }

  /** Narrowing does not come closer to the whole range. */
  lemma NarrowedKeepsDebt(s: Interval, slot: Slot)
    requires CanEncode(s, slot)
    ensures var n := Narrowed(s, slot);
            && (Inv(s) ==> Inv(n))
            && (!Inv(n) ==> Debt(n) <= Debt(s))
            && (s.range >= BOTTOM ==> n.range >= 0x2_0000)
  {
    var n, unit := Narrowed(s, slot), Unit(s, slot);
    CanEncodeIff(s, slot);
    NarrowFits(s, unit, slot);
    NonNegative(unit, slot.cum);
    if !Inv(n) {
      WrapsLeftFall(WORD - s.range, WORD - n.range);
    }
    if s.range >= BOTTOM {
      WideUnit(s, slot.total);
      ProductAtLeast(slot.freq, unit);
    }
  }

  /** From any snapshot, n slots write at most 6n + 17 bytes before `Finish`. */
  lemma {:induction false} WrittenLength(s: Interval, slots: seq<Slot>)
    requires CanEncodeAll(s, slots)
    ensures |Written(s, slots)| + Debt(After(s, slots)) <= 6 * |slots| + Debt(s)
    decreases |slots|
  {
    hide EncodeStep, Debt;
    if slots != [] {
      StepPays(s, slots[0]);
      WrittenLength(EncodeStep(s, slots[0]).0, slots[1..]);
    }
  }

  /** n symbols take at most 6n + 8 bytes. */
  lemma EncodedLength(s: Interval, slots: seq<Slot>)
    requires Ready(s) && AllValid(slots)
    ensures 8 <= |Emitted(s, slots)| <= 8 + 6 * |slots|
  {
    ReadyIsWide(s);
    WrittenLength(s, slots);
    EmittedIsWrittenThenLow(s, slots);
  }

  // ----- an encoder at work -----

  lemma NothingEncoded()
    ensures Ready(WHOLE) && AllValid([]) && After(WHOLE, []) == WHOLE && Written(WHOLE, []) == []
  {
    WholeIsReady();
  }

  /** One more slot on a prefix that is already encoded. */
  lemma EncodeOneMore(from: Snapshot, slots: seq<Slot>, slot: Slot)
    requires CanEncodeAll(StateOf(from), slots) && CanEncode(StateOf(Carried(from, slots)), slot)
    ensures CanEncodeAll(StateOf(from), slots + [slot])
    ensures var (t, out) := EncodeStep(StateOf(Carried(from, slots)), slot);
            Carried(from, slots + [slot]) == Snapshot(t.low, t.range, Carried(from, slots).out + out)
  {
    hide EncodeStep, After, Written, CanEncode;
    var s, t := StateOf(from), After(StateOf(from), slots);
    EncodeOne(t, slot);
    EncodeInParts(s, slots, [slot]);
    AppendAssociates(from.out, Written(s, slots), EncodeStep(t, slot).1);
  }

  lemma EncodeOne(s: Interval, slot: Slot)
    requires CanEncode(s, slot)
    ensures CanEncodeAll(s, [slot])
    ensures After(s, [slot]) == EncodeStep(s, slot).0 && Written(s, [slot]) == EncodeStep(s, slot).1
  {
    hide EncodeStep;
    assert Written(s, [slot]) == EncodeStep(s, slot).1 + [];
  }

  /** An encoder that has written these slots since the snapshot, and nothing else. */
  ghost predicate HasWritten(enc: RangeEncoder, from: Snapshot, slots: seq<Slot>)
    reads enc
  {
    && CanEncodeAll(StateOf(from), slots) && enc.TakeSnapshot() == Carried(from, slots)
    && (slots != [] ==> enc.range >= MAX_TOTAL)
  }

  lemma NothingWritten(enc: RangeEncoder)
    ensures HasWritten(enc, enc.TakeSnapshot(), [])
  {
  }

  lemma WrittenIsWide(enc: RangeEncoder, from: Snapshot, slots: seq<Slot>)
    requires HasWritten(enc, from, slots) && slots != []
    ensures enc.range >= MAX_TOTAL
  {
  }

  method WriteSlot(enc: RangeEncoder, slot: Slot, ghost from: Snapshot, ghost slots: seq<Slot>)
    requires HasWritten(enc, from, slots) && Validate(slot) && slot.total <= enc.range
    modifies enc
    ensures HasWritten(enc, from, slots + [slot])
  {
    hide EncodeStep, After, Written, Ready, Validate;
    EncodeOneMore(from, slots, slot);
    var done := enc.Encode(slot);
  }

  method FinishSlots(enc: RangeEncoder, ghost from: Snapshot, ghost slots: seq<Slot>) returns (bytes: seq<byte>)
    requires HasWritten(enc, from, slots)
    modifies enc
    ensures bytes == from.out + Emitted(StateOf(from), slots)
  {
    hide After, Written, Emitted, CanEncodeAll, TopBytes;
    var s := StateOf(from);
    EmittedIsWrittenThenLow(s, slots);
    AppendAssociates(from.out, Written(s, slots), TopBytes(After(s, slots).low, 8));
    bytes := enc.Finish();
  }
}
