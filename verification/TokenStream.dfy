/** Token streams under given tables: encoding, and decoding that insists on the canonical bytes. */
module TokenStream {
  import opened Bits
  import opened Outcomes
  import opened RangeCoder
  import opened RangeTheorems
  import opened Distributions

  datatype StreamError = LengthMismatch | SymbolOutOfRange | BadCdf | NonCanonicalPayload | Range(error: RangeError)

  /** The slots of a token list, or the first reason there are none. */
  ghost function SlotsOf(cdfs: seq<Cdf>, tokens: seq<nat>): (r: Result<seq<Slot>, StreamError>)
    requires |cdfs| == |tokens|
    ensures r.Ok? ==> |r.value| == |tokens| && AllValid(r.value)
    decreases |cdfs|
  {
    if cdfs == [] then Ok([])
    else if !WellFormed(cdfs[0]) then Err(BadCdf)
    else if tokens[0] >= |cdfs[0].freq| then Err(StreamError.SymbolOutOfRange)
    else
      SlotIsValid(cdfs[0].freq, tokens[0]);
      var rest :- SlotsOf(cdfs[1..], tokens[1..]);
      Ok([SlotOf(cdfs[0].freq, tokens[0])] + rest)
  }

  ghost function EncodeStream(cdfs: seq<Cdf>, tokens: seq<nat>): Result<seq<byte>, StreamError> {
    if |cdfs| != |tokens| then Err(LengthMismatch)
    else
      WholeIsReady();
      var slots :- SlotsOf(cdfs, tokens);
      Ok(Emitted(WHOLE, slots))
  }

  ghost function DecodeTokens(d: DecoderState, cdfs: seq<Cdf>, input: seq<byte>): (r: Result<seq<nat>, StreamError>)
    requires DecoderInv(d)
    ensures r.Ok? ==> |r.value| == |cdfs|
    decreases |cdfs|
  {
    if cdfs == [] then Ok([])
    else if !WellFormed(cdfs[0]) then Err(BadCdf)
    else
      var (e, value) := DecodeFreq(d, cdfs[0].total);
      if value.Err? then Err(Range(value.error))
      else
        var token := SymbolAt(cdfs[0].freq, value.value);
        var (t, done) := Advance(e, SlotOf(cdfs[0].freq, token), input);
        if done.Err? then Err(Range(done.error))
        else
          var rest :- DecodeTokens(t, cdfs[1..], input);
          Ok([token] + rest)
  }

  ghost function DecodeStream(cdfs: seq<Cdf>, bytes: seq<byte>): Result<seq<nat>, StreamError> {
    var d := DecoderNew(bytes);
    if d.Err? then Err(Range(d.error))
    else
      var out :- DecodeTokens(d.value, cdfs, bytes);
      var canonical :- EncodeStream(cdfs, out);
      if canonical != bytes then Err(NonCanonicalPayload) else Ok(out)
  }

  // ----- the loops -----

  /** What the tables hold for a token is its slot. */
  lemma TableSlot(cdf: Cdf, token: nat)
    requires WellFormed(cdf)
    ensures |cdf.cum| == |cdf.freq|
    ensures token < |cdf.freq| ==>
              && Total(cdf.freq) < MAX_TOTAL
              && Slot(cdf.cum[token], cdf.freq[token], cdf.total) == SlotOf(cdf.freq, token)
              && Validate(SlotOf(cdf.freq, token))
  {
    if token < |cdf.freq| {
      SlotIsValid(cdf.freq, token);
    }
  }

  lemma SlotsTurn(cdfs: seq<Cdf>, tokens: seq<nat>, i: nat, slots: seq<Slot>)
    requires i < |cdfs| == |tokens|
    ensures Prefixed(slots, SlotsOf(cdfs[i..], tokens[i..])) ==
            if !WellFormed(cdfs[i]) then Err(BadCdf)
            else if tokens[i] >= |cdfs[i].freq| then Err(StreamError.SymbolOutOfRange)
            else Prefixed(slots + [SlotOf(cdfs[i].freq, tokens[i])], SlotsOf(cdfs[i + 1..], tokens[i + 1..]))
  {
    assert cdfs[i..][1..] == cdfs[i + 1..] && tokens[i..][1..] == tokens[i + 1..];
    hide WellFormed;
    var rest := SlotsOf(cdfs[i + 1..], tokens[i + 1..]);
    if WellFormed(cdfs[i]) && tokens[i] < |cdfs[i].freq| && rest.Ok? {
      TableSlot(cdfs[i], tokens[i]);
      var slot := SlotOf(cdfs[i].freq, tokens[i]);
      assert slots + ([slot] + rest.value) == slots + [slot] + rest.value;
    }
  }

  method EncodeTokenStream(cdfs: seq<Cdf>, tokens: seq<nat>) returns (r: Result<seq<byte>, StreamError>)
    ensures r == EncodeStream(cdfs, tokens)
  {
    if |cdfs| != |tokens| {
      return Err(LengthMismatch);
    }
    hide WellFormed, HasWritten, Emitted, SlotOf, SlotsOf, Validate, Ready;
    var enc := new RangeEncoder();
    ghost var slots: seq<Slot> := [];
    NothingWritten(enc);
    PrefixedNothing(SlotsOf(cdfs, tokens));
    assert cdfs[0..] == cdfs && tokens[0..] == tokens;
    for i := 0 to |cdfs|
      invariant HasWritten(enc, BLANK, slots) && enc.range >= MAX_TOTAL
      invariant SlotsOf(cdfs, tokens) == Prefixed(slots, SlotsOf(cdfs[i..], tokens[i..]))
    {
      SlotsTurn(cdfs, tokens, i, slots);
      var valid := ValidateCdf(cdfs[i]);
      if valid.Err? {
        return Err(BadCdf);
      }
      TableSlot(cdfs[i], tokens[i]);
      if tokens[i] >= |cdfs[i].cum| || tokens[i] >= |cdfs[i].freq| {
        return Err(StreamError.SymbolOutOfRange);
      }
      var slot := Slot(cdfs[i].cum[tokens[i]], cdfs[i].freq[tokens[i]], cdfs[i].total);
      WriteSlot(enc, slot, BLANK, slots);
      slots := slots + [slot];
    }
    NoSlotsLeft(cdfs, tokens);
    assert slots + [] == slots;
    var bytes := FinishSlots(enc, BLANK, slots);
    assert [] + Emitted(WHOLE, slots) == Emitted(WHOLE, slots);
    r := Ok(bytes);
  }

  lemma NoSlotsLeft(cdfs: seq<Cdf>, tokens: seq<nat>)
    requires |cdfs| == |tokens|
    ensures SlotsOf(cdfs[|cdfs|..], tokens[|cdfs|..]) == Ok([])
  {
  }

  lemma AllDecoded(d: DecoderState, cdfs: seq<Cdf>, input: seq<byte>)
    requires DecoderInv(d)
    ensures DecodeTokens(d, cdfs[|cdfs|..], input) == Ok([])
  {
  }

  lemma FreqBelowTotal(d: DecoderState, total: u64)
    requires DecoderInv(d)
    ensures DecodeFreq(d, total).1.Ok? ==> DecodeFreq(d, total).1.value < total
  {
  }

  lemma DecodeTokensTurn(d: DecoderState, cdfs: seq<Cdf>, input: seq<byte>, done: seq<nat>)
    requires DecoderInv(d) && cdfs != [] && WellFormed(cdfs[0]) && DecodeFreq(d, cdfs[0].total).1.Ok?
    ensures var (e, value) := DecodeFreq(d, cdfs[0].total);
            var token := SymbolAt(cdfs[0].freq, value.value);
            var (t, r) := Advance(e, SlotOf(cdfs[0].freq, token), input);
            Prefixed(done, DecodeTokens(d, cdfs, input)) ==
            if r.Err? then Err(Range(r.error)) else Prefixed(done + [token], DecodeTokens(t, cdfs[1..], input))
  {
    hide DecodeFreq, Advance, SymbolAt, SlotOf, DecoderInv;
    var (e, value) := DecodeFreq(d, cdfs[0].total);
    var token := SymbolAt(cdfs[0].freq, value.value);
    var (t, r) := Advance(e, SlotOf(cdfs[0].freq, token), input);
    if r.Ok? {
      var rest := DecodeTokens(t, cdfs[1..], input);
      if rest.Ok? {
        assert done + ([token] + rest.value) == done + [token] + rest.value;
      }
    }
  }

  method DecodeTokenStream(cdfs: seq<Cdf>, bytes: seq<byte>) returns (r: Result<seq<nat>, StreamError>)
    ensures r == DecodeStream(cdfs, bytes)
  {
    var session := RangeDecoder.Open(bytes);
    if session.Err? {
      return Err(Range(session.error));
    }
    hide WellFormed, DecodeFreq, Advance, DecoderInv, SymbolAt, SlotOf, DecodeTokens, EncodeStream, DecoderNew;
    hide SymbolForValidated, IsTable;
    var dec := session.value;
    ghost var start := dec.State();
    var out: seq<nat> := [];
    assert cdfs[0..] == cdfs;
    PrefixedNothing(DecodeTokens(start, cdfs, bytes));
    for i := 0 to |cdfs|
      invariant dec.Valid() && dec.input == bytes && fresh(dec)
      invariant DecodeTokens(start, cdfs, bytes) == Prefixed(out, DecodeTokens(dec.State(), cdfs[i..], bytes))
    {
      ghost var d := dec.State();
      assert cdfs[i..][1..] == cdfs[i + 1..];
      var valid := ValidateCdf(cdfs[i]);
      if valid.Err? {
        return Err(BadCdf);
      }
      var value := dec.NextFreq(cdfs[i].total);
      if value.Err? {
        return Err(Range(value.error));
      }
      TableLookup(cdfs[i], value.value);
      FreqBelowTotal(d, cdfs[i].total);
      var token := SymbolForValidated(cdfs[i], value.value).value;
      TableSlot(cdfs[i], token);
      var slot := Slot(cdfs[i].cum[token], cdfs[i].freq[token], cdfs[i].total);
      var done := dec.AdvanceBy(slot);
      DecodeTokensTurn(d, cdfs[i..], bytes, out);
      if done.Err? {
        return Err(Range(done.error));
      }
      out := out + [token];
    }
    assert out + [] == out;
    AllDecoded(dec.State(), cdfs, bytes);
    var canonical := EncodeTokenStream(cdfs, out);
    if canonical.Err? {
      return Err(canonical.error);
    }
    if canonical.value != bytes {
      return Err(NonCanonicalPayload);
    }
    r := Ok(out);
  }

  // ----- decoding is the exact partial inverse of encoding -----

  lemma NothingLeft(s: Interval, full: seq<byte>, input: seq<byte>, pos: nat)
    requires Ready(s) && 8 <= pos <= |full| && pos <= |input| && full[pos - 8..] == Emitted(s, [])
    ensures |full| == pos && DecodeTokens(Mirror(s, input, pos), [], input) == Ok([])
  {
  }

  lemma FirstSlot(cdfs: seq<Cdf>, tokens: seq<nat>)
    requires |cdfs| == |tokens| && cdfs != [] && SlotsOf(cdfs, tokens).Ok?
    ensures WellFormed(cdfs[0]) && tokens[0] < |cdfs[0].freq| && cdfs[0].total < MAX_TOTAL
    ensures IsTable(cdfs[0], cdfs[0].freq)
    ensures SlotsOf(cdfs[1..], tokens[1..]).Ok?
    ensures SlotsOf(cdfs, tokens).value == [SlotOf(cdfs[0].freq, tokens[0])] + SlotsOf(cdfs[1..], tokens[1..]).value
  {
  }

  lemma FirstToken(cdf: Cdf, token: nat, value: u64)
    requires IsTable(cdf, cdf.freq) && cdf.total < MAX_TOTAL && token < |cdf.freq|
    requires var slot := SlotOf(cdf.freq, token); slot.cum <= value < slot.cum + slot.freq
    ensures SlotOf(cdf.freq, token).total == cdf.total
    ensures value < cdf.total && SymbolAt(cdf.freq, value) == token
  {
    SymbolUnique(cdf.freq, value, token);
  }

  /** Decoding a whole, truncated or extended encoding from the middle on. */
  lemma {:induction false} TokensFollow(s: Interval, cdfs: seq<Cdf>, tokens: seq<nat>, full: seq<byte>,
                                        input: seq<byte>, pos: nat)
    requires Ready(s) && |cdfs| == |tokens| && SlotsOf(cdfs, tokens).Ok?
    requires 8 <= pos <= |full| && full[pos - 8..] == Emitted(s, SlotsOf(cdfs, tokens).value)
    requires pos <= |input| && (input <= full || full <= input)
    ensures DecodeTokens(Mirror(s, input, pos), cdfs, input) ==
            if |full| <= |input| then Ok(tokens) else Err(Range(UnexpectedEof))
    decreases |cdfs|
  {
    hide EncodeStep, DecodeFreq, Advance, Inv, Validate, Word8, WellFormed, DecodeTokens, SlotOf, SymbolAt, Emitted;
    if cdfs == [] {
      NothingLeft(s, full, input, pos);
    } else {
      var slots := SlotsOf(cdfs, tokens).value;
      FirstSlot(cdfs, tokens);
      assert slots[1..] == SlotsOf(cdfs[1..], tokens[1..]).value;
      DecodeStepFollows(s, slots, full, input, pos);
      var d := Mirror(s, input, pos);
      FirstToken(cdfs[0], tokens[0], DecodeFreq(d, slots[0].total).1.value);
      DecodeTokensTurn(d, cdfs, input, []);
      PrefixedNothing(DecodeTokens(d, cdfs, input));
      var (t, out) := EncodeStep(s, slots[0]);
      assert [] + [tokens[0]] == [tokens[0]];
      if pos + |out| <= |input| {
        TokensFollow(t, cdfs[1..], tokens[1..], full, input, pos + |out|);
        assert [tokens[0]] + tokens[1..] == tokens;
      } else {
        assert Advance(DecodeFreq(d, slots[0].total).0, slots[0], input).1 == Err(UnexpectedEof);
      }
    }
  }

  lemma StreamFollows(cdfs: seq<Cdf>, tokens: seq<nat>, input: seq<byte>)
    requires EncodeStream(cdfs, tokens).Ok?
    requires var full := EncodeStream(cdfs, tokens).value; input <= full || full <= input
    ensures var full := EncodeStream(cdfs, tokens).value;
            DecodeStream(cdfs, input) ==
            if input == full then Ok(tokens)
            else if |input| < |full| then Err(Range(UnexpectedEof))
            else Err(NonCanonicalPayload)
  {
    if |input| >= 8 {
      var full := EncodeStream(cdfs, tokens).value;
      OpenedMirrors(input);
      assert full[0..] == full;
      TokensFollow(WHOLE, cdfs, tokens, full, input, 8);
    }
  }

  /** For all tables and bytes: decoding yields a token list exactly when that list encodes to those bytes. */
  lemma DecodeIffEncode(cdfs: seq<Cdf>, tokens: seq<nat>, bytes: seq<byte>)
    ensures DecodeStream(cdfs, bytes) == Ok(tokens) <==> EncodeStream(cdfs, tokens) == Ok(bytes)
  {
    if EncodeStream(cdfs, tokens) == Ok(bytes) {
      StreamFollows(cdfs, tokens, bytes);
    }
  }

  /** A payload cut short runs out of input; a payload with bytes appended is not canonical. */
  lemma CutOrExtended(cdfs: seq<Cdf>, tokens: seq<nat>, extra: seq<byte>, cut: nat)
    requires EncodeStream(cdfs, tokens).Ok? && cut < |EncodeStream(cdfs, tokens).value| && extra != []
    ensures DecodeStream(cdfs, EncodeStream(cdfs, tokens).value[..cut]) == Err(Range(UnexpectedEof))
    ensures DecodeStream(cdfs, EncodeStream(cdfs, tokens).value + extra) == Err(NonCanonicalPayload)
  {
    var full := EncodeStream(cdfs, tokens).value;
    StreamFollows(cdfs, tokens, full[..cut]);
    StreamFollows(cdfs, tokens, full + extra);
  }

  /** Different token lists never share an encoding. */
  lemma EncodingInjective(cdfs: seq<Cdf>, a: seq<nat>, b: seq<nat>)
    requires EncodeStream(cdfs, a).Ok? && EncodeStream(cdfs, a) == EncodeStream(cdfs, b)
    ensures a == b
  {
    DecodeIffEncode(cdfs, a, EncodeStream(cdfs, a).value);
    DecodeIffEncode(cdfs, b, EncodeStream(cdfs, b).value);
  }
}
