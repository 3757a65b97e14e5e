/** The encoding and decoding loops, equal to the codec's functions. */
module CodecLoops {
  import opened Bits
  import opened Outcomes
  import opened RangeCoder
  import opened RangeTheorems
  import opened Windows
  import opened Llama
  import opened Forward
  import opened Tokenizers
  import opened Codec
  import opened CodecTheorems
  import opened WindowedStates

  /** The window state stands at the end of these tokens, its window moved on for the next symbol or not yet. */
  ghost predicate Follows(state: WindowedModelState, tokens: seq<nat>)
    reads state, state.cache, state.workspace
  {
    var c, n := state.settings, |tokens|;
    && state.Valid()
    && state.windowStart <= n && state.context == tokens[state.windowStart..]
    && (state.windowStart == PrefixStart(n, c.nCtx, c.overlap)
        || state.windowStart == SyncedStart(n, c.nCtx, c.overlap))
  }

  /** Forward steps beyond those the tokens account for. */
  ghost function Spent(state: WindowedModelState, n: nat): int
    reads state
    requires state.settings.overlap < state.settings.nCtx
  {
    var c := state.settings;
    state.steps - ForwardSteps(n, state.windowStart == SyncedStart(n, c.nCtx, c.overlap), c.nCtx, c.overlap)
  }

  /** Bring the window up to date for the next symbol. */
  method SyncTo(state: WindowedModelState, tokens: seq<nat>) returns (r: Result<(), CodecError>)
    requires Follows(state, tokens)
    modifies state, state.cache, state.workspace
    ensures state.Equipped() && (state.cache == old(state.cache) || fresh(state.cache))
    ensures r.Err? ==> LogitsIn(state.settings, WindowOf(state.settings, tokens)) == Err(r.error)
                       && WindowOf(state.settings, tokens) != []
    ensures r.Ok? ==>
              && Follows(state, tokens) && Spent(state, |tokens|) == old(Spent(state, |tokens|))
              && state.windowStart == SyncedStart(|tokens|, state.settings.nCtx, state.settings.overlap)
              && state.context == WindowOf(state.settings, tokens)
  {
    hide HistoryOf, ValidLayout, PrefixStart, ForwardSteps, NextWindowStart;
    SyncIsIdempotent(|tokens|, state.settings.nCtx, state.settings.overlap);
    SyncSteps(|tokens|, state.settings.nCtx, state.settings.overlap);
    StartsFrom(state, tokens);
    r := state.Sync(|tokens|, tokens);
  }

  lemma StartsFrom(state: WindowedModelState, tokens: seq<nat>)
    requires Follows(state, tokens)
    ensures NextWindowStart(|tokens|, state.windowStart, state.settings.nCtx, state.settings.overlap) ==
            SyncedStart(|tokens|, state.settings.nCtx, state.settings.overlap)
    ensures HistoryOf(state.settings.model, []).Ok?
  {
  }

  /** Let a symbol into the context. */
  method PushSymbol(state: WindowedModelState, tokens: seq<nat>, symbol: nat) returns (r: Result<seq<nat>, CodecError>)
    requires Follows(state, tokens) && state.context == WindowOf(state.settings, tokens)
    requires state.windowStart == SyncedStart(|tokens|, state.settings.nCtx, state.settings.overlap)
    modifies state, state.cache, state.workspace
    ensures state.Equipped() && state.cache == old(state.cache)
    ensures r == Push(state.settings, tokens, symbol)
    ensures r.Ok? ==> Follows(state, r.value) && Spent(state, |r.value|) == old(Spent(state, |tokens|))
    ensures r.Ok? ==> state.windowStart == old(state.windowStart)
  {
    hide HistoryOf, ValidLayout, PrefixStart, ForwardSteps, NextWindowStart;
    var c := state.settings;
    if c.escapes && !SymbolIsToken(symbol, c.model.vocab) {
      return Ok(tokens);
    }
    if symbol >= c.model.vocab {
      return Err(OutsideVocabulary(symbol));
    }
    SyncIsIdempotent(|tokens|, c.nCtx, c.overlap);
    SyncSteps(|tokens|, c.nCtx, c.overlap);
    SyncSteps(|tokens| + 1, c.nCtx, c.overlap);
    var done := state.Advance(symbol);
    if done.Err? {
      return Err(done.error);
    }
    r := Ok(tokens + [symbol]);
  }

  // ----- encoding -----

  /** The slot of the next symbol is not wider than an encoder's range. */
  ghost predicate SlotFits(c: Settings, tokens: seq<nat>, symbol: nat, range: u64)
    requires Usable(c)
  {
    var slot := SlotIn(c, WindowOf(c, tokens), symbol);
    slot.Ok? ==> slot.value.total <= range
  }

  lemma WideFits(c: Settings, tokens: seq<nat>, symbol: nat, range: u64)
    requires Usable(c) && range >= MAX_TOTAL
    ensures SlotFits(c, tokens, symbol, range)
  {
    hide SlotIn, WindowOf;
    UsableLayout(c);
    SlotInDistribution(c, WindowOf(c, tokens), symbol);
  }

  /** One turn of the encoding loop: the new context and what has been written. */
  method EncodeNext(state: WindowedModelState, enc: RangeEncoder, tokens: seq<nat>, symbol: nat, ghost from: Snapshot,
                    ghost slots: seq<Slot>)
    returns (r: Result<seq<nat>, CodecError>, ghost slots': seq<Slot>)
    requires Follows(state, tokens) && HasWritten(enc, from, slots)
    requires Usable(state.settings) && SlotFits(state.settings, tokens, symbol, enc.range)
    modifies state, state.cache, state.workspace, enc
    ensures state.cache == old(state.cache) || fresh(state.cache)
    ensures r.Err? ==> forall later :: SlotsFor(state.settings, tokens, [symbol] + later) == Err(r.error)
    ensures r.Ok? ==>
              && HasWritten(enc, from, slots') && slots' != [] && Follows(state, r.value)
              && Spent(state, |r.value|) == old(Spent(state, |tokens|))
              && state.windowStart == SyncedStart(|tokens|, state.settings.nCtx, state.settings.overlap)
              && r.value == (if SymbolIsToken(symbol, state.settings.model.vocab) then tokens + [symbol] else tokens)
              && forall later :: Prefixed(slots, SlotsFor(state.settings, tokens, [symbol] + later))
                                 == Prefixed(slots', SlotsFor(state.settings, r.value, later))
  {
    hide HistoryOf, ValidLayout, PrefixStart, ForwardSteps, NextWindowStart, SlotsFor, SlotIn, LogitsIn, HasWritten;
    hide Spent;
    SlotsForTurn(state.settings, tokens, symbol, slots);
    slots' := slots;
    var synced := SyncTo(state, tokens);
    if synced.Err? {
      NoLogitsNoSlot(state.settings, WindowOf(state.settings, tokens), symbol);
      return Err(synced.error), slots;
    }
    var slot := state.SymbolRange(symbol);
    if slot.Err? {
      return Err(slot.error), slots;
    }
    SlotInDistribution(state.settings, WindowOf(state.settings, tokens), symbol);
    WriteSlot(enc, slot.value, from, slots);
    slots' := slots + [slot.value];
    r := PushSymbol(state, tokens, symbol);
  }

  lemma NoLogitsNoSlot(c: Settings, window: seq<nat>, symbol: nat)
    requires ValidLayout(c.model) && window != [] && LogitsIn(c, window).Err?
    ensures SlotIn(c, window, symbol) == Err(LogitsIn(c, window).error)
  {
  }

  lemma SlotsForTurn(c: Settings, tokens: seq<nat>, symbol: nat, slots: seq<Slot>)
    requires Usable(c)
    ensures var slot := SlotIn(c, WindowOf(c, tokens), symbol);
            var next := Push(c, tokens, symbol);
            forall later :: Prefixed(slots, SlotsFor(c, tokens, [symbol] + later)) ==
                            if slot.Err? then Err(slot.error)
                            else if next.Err? then Err(next.error)
                            else Prefixed(slots + [slot.value], SlotsFor(c, next.value, later))
    ensures forall later :: SlotsFor(c, tokens, [symbol] + later).Err? ==>
              Prefixed(slots, SlotsFor(c, tokens, [symbol] + later)) == SlotsFor(c, tokens, [symbol] + later)
  {
    hide SlotIn, Push;
    forall later
      ensures var slot := SlotIn(c, WindowOf(c, tokens), symbol);
              var next := Push(c, tokens, symbol);
              Prefixed(slots, SlotsFor(c, tokens, [symbol] + later)) ==
              if slot.Err? then Err(slot.error)
              else if next.Err? then Err(next.error)
              else Prefixed(slots + [slot.value], SlotsFor(c, next.value, later))
    {
      assert ([symbol] + later)[1..] == later;
      var slot, next := SlotIn(c, WindowOf(c, tokens), symbol), Push(c, tokens, symbol);
      if slot.Ok? && next.Ok? && SlotsFor(c, next.value, later).Ok? {
        var rest := SlotsFor(c, next.value, later).value;
        assert slots + ([slot.value] + rest) == slots + [slot.value] + rest;
      }
    }
  }

  /** The tokens among some symbols. */
  function TokensIn(symbols: seq<nat>, vocabLen: nat): (r: seq<nat>)
    ensures |r| <= |symbols|
  {
    if symbols == [] then []
    else
      var n := |symbols| - 1;
      TokensIn(symbols[..n], vocabLen) + if SymbolIsToken(symbols[n], vocabLen) then [symbols[n]] else []
  }

  /** The window state after the given symbols: its context is their tokens, it has taken a forward step for each and
      the replays between them, and it has moved on only for an escape. */
  ghost predicate StandsAfter(state: WindowedModelState, done: seq<nat>, tokens: seq<nat>)
    reads state, state.cache, state.workspace
  {
    var c := state.settings;
    && Follows(state, tokens)
    && tokens == TokensIn(done, c.model.vocab) && Spent(state, |tokens|) == 0
    && state.windowStart == if EndsInEscape(c, done) then SyncedStart(|tokens|, c.nCtx, c.overlap)
                            else PrefixStart(|tokens|, c.nCtx, c.overlap)
  }

  /** How far the encoding loop has come after the given symbols. */
  ghost predicate Reached(state: WindowedModelState, enc: RangeEncoder, done: seq<nat>, tokens: seq<nat>,
                          slots: seq<Slot>)
    reads state, state.cache, state.workspace, enc
  {
    StandsAfter(state, done, tokens) && HasWritten(enc, BLANK, slots) && enc.range >= MAX_TOTAL
  }

  predicate EndsInEscape(c: Settings, symbols: seq<nat>) {
    symbols != [] && !SymbolIsToken(symbols[|symbols| - 1], c.model.vocab)
  }

  method EncodeAll(state: WindowedModelState, enc: RangeEncoder, symbols: seq<nat>)
    returns (r: Result<seq<nat>, CodecError>, ghost slots: seq<Slot>)
    requires Reached(state, enc, [], [], [])
    modifies state, state.cache, state.workspace, enc
    ensures r.Err? ==> SlotsFor(state.settings, [], symbols) == Err(r.error)
    ensures r.Ok? ==> SlotsFor(state.settings, [], symbols) == Ok(slots) && Reached(state, enc, symbols, r.value, slots)
  {
    hide SlotsFor, Reached, ValidLayout;
    var c := state.settings;
    var tokens: seq<nat> := [];
    slots := [];
    ReachedMeans(state, enc, [], [], []);
    PrefixedNothing(SlotsFor(c, [], symbols));
    assert symbols[0..] == symbols && symbols[..0] == [];
    for i := 0 to |symbols|
      invariant state.cache == old(state.cache) || fresh(state.cache)
      invariant Reached(state, enc, symbols[..i], tokens, slots)
      invariant SlotsFor(c, [], symbols) == Prefixed(slots, SlotsFor(c, tokens, symbols[i..]))
    {
      r, slots := EncodeTurn(state, enc, symbols, i, tokens, slots);
      if r.Err? {
        return;
      }
      tokens := r.value;
    }
    NoSymbolsLeft(c, tokens, symbols, slots);
    assert symbols[..|symbols|] == symbols;
    r := Ok(tokens);
  }

  method EncodeTurn(state: WindowedModelState, enc: RangeEncoder, symbols: seq<nat>, i: nat, tokens: seq<nat>,
                    ghost slots: seq<Slot>)
    returns (r: Result<seq<nat>, CodecError>, ghost slots': seq<Slot>)
    requires i < |symbols| && Reached(state, enc, symbols[..i], tokens, slots)
    modifies state, state.cache, state.workspace, enc
    ensures state.cache == old(state.cache) || fresh(state.cache)
    ensures r.Err? ==> Prefixed(slots, SlotsFor(state.settings, tokens, symbols[i..])) == Err(r.error)
    ensures r.Ok? ==>
              && Reached(state, enc, symbols[..i + 1], r.value, slots')
              && Prefixed(slots, SlotsFor(state.settings, tokens, symbols[i..])) ==
                 Prefixed(slots', SlotsFor(state.settings, r.value, symbols[i + 1..]))
  {
    hide ValidLayout, SlotsFor, HasWritten, PrefixStart, Spent, ForwardSteps, SyncedStart, Follows, Usable;
    hide ValidateWindow, TokensIn, EndsInEscape, SlotFits, SymbolIsToken, WindowedModelState.Valid;
    ReachedMeans(state, enc, symbols[..i], tokens, slots);
    UsableLayout(state.settings);
    SyncIsIdempotent(|tokens|, state.settings.nCtx, state.settings.overlap);
    OneSymbolMore(state.settings, symbols, i);
    EndsWith(state.settings, symbols[..i], symbols[i]);
    WideFits(state.settings, tokens, symbols[i], enc.range);
    r, slots' := EncodeNext(state, enc, tokens, symbols[i], BLANK, slots);
    if r.Ok? {
      WrittenIsWide(enc, BLANK, slots');
    }
  }

  lemma OneSymbolMore(c: Settings, symbols: seq<nat>, i: nat)
    requires i < |symbols|
    ensures symbols[i..] == [symbols[i]] + symbols[i + 1..]
    ensures symbols[..i + 1] == symbols[..i] + [symbols[i]]
  {
  }

  lemma EndsWith(c: Settings, symbols: seq<nat>, symbol: nat)
    ensures EndsInEscape(c, symbols + [symbol]) == !SymbolIsToken(symbol, c.model.vocab)
    ensures TokensIn(symbols + [symbol], c.model.vocab) ==
            if SymbolIsToken(symbol, c.model.vocab) then TokensIn(symbols, c.model.vocab) + [symbol]
            else TokensIn(symbols, c.model.vocab)
  {
    assert (symbols + [symbol])[..|symbols|] == symbols;
    assert TokensIn(symbols, c.model.vocab) + [] == TokensIn(symbols, c.model.vocab);
  }

  lemma StandsMeans(state: WindowedModelState, done: seq<nat>, tokens: seq<nat>)
    requires StandsAfter(state, done, tokens)
    ensures var c := state.settings;
            && Usable(c)
            && state.steps == ForwardSteps(|TokensIn(done, c.model.vocab)|, EndsInEscape(c, done), c.nCtx, c.overlap)
  {
    hide PrefixStart, ValidLayout;
    var c, n := state.settings, |tokens|;
    SyncSteps(n, c.nCtx, c.overlap);
  }

  lemma ReachedMeans(state: WindowedModelState, enc: RangeEncoder, done: seq<nat>, tokens: seq<nat>, slots: seq<Slot>)
    requires Reached(state, enc, done, tokens, slots)
    ensures var c := state.settings;
            && Usable(c) && HasWritten(enc, BLANK, slots) && enc.range >= MAX_TOTAL
            && state.steps == ForwardSteps(|TokensIn(done, c.model.vocab)|, EndsInEscape(c, done), c.nCtx, c.overlap)
  {
    hide StandsAfter, HasWritten;
    StandsMeans(state, done, tokens);
  }

  lemma NoSymbolsLeft(c: Settings, tokens: seq<nat>, symbols: seq<nat>, slots: seq<Slot>)
    requires Usable(c)
    ensures Prefixed(slots, SlotsFor(c, tokens, symbols[|symbols|..])) == Ok(slots)
  {
    assert slots + [] == slots;
  }

  /** The encoding loop. It takes one forward step for each token and a replay of the overlap for each rollover. */
  method EncodeSymbolsWithModel(c: Settings, symbols: seq<nat>)
    returns (r: Result<seq<byte>, CodecError>, ghost steps: nat)
    requires ValidLayout(c.model)
    ensures r == EncodeSymbols(c, symbols)
    ensures r.Ok? ==>
              && c.overlap < c.nCtx
              && steps == ForwardSteps(|TokensIn(symbols, c.model.vocab)|, EndsInEscape(c, symbols), c.nCtx, c.overlap)
  {
    hide ValidLayout, StartUp, SlotsFor, HasWritten, Emitted, PrefixStart, Reached, ForwardSteps;
    hide WindowedModelState.Valid;
    steps := 0;
    var checked := CheckedWindow(c);
    if checked.Err? {
      return Err(checked.error), 0;
    }
    var enc := new RangeEncoder();
    var start := WindowedModelState.New(c);
    if start.Err? {
      return Err(start.error), 0;
    }
    var state := start.value;
    NothingReached(state, enc);
    ghost var slots;
    var done;
    done, slots := EncodeAll(state, enc, symbols);
    if done.Err? {
      return Err(done.error), 0;
    }
    ReachedMeans(state, enc, symbols, done.value, slots);
    var bytes := FinishSlots(enc, BLANK, slots);
    assert [] + Emitted(WHOLE, slots) == Emitted(WHOLE, slots);
    r, steps := Ok(bytes), state.steps;
  }

  lemma AtTheStart(state: WindowedModelState)
    requires state.Valid() && state.windowStart == 0 && state.context == [] && state.steps == 0
    ensures StandsAfter(state, [], [])
  {
    hide PrefixStart, SyncedStart, ForwardSteps;
    NoStepsAtStart(state.settings.nCtx, state.settings.overlap);
  }

  lemma NothingReached(state: WindowedModelState, enc: RangeEncoder)
    requires state.Valid() && state.windowStart == 0 && state.context == [] && state.steps == 0
    requires enc.TakeSnapshot() == BLANK
    ensures Reached(state, enc, [], [], [])
  {
    hide StandsAfter;
    AtTheStart(state);
    NothingWritten(enc);
  }

  // ----- decoding -----

  /** What has been decoded, followed by what is still to come. */
  function Joined(done: Decoded, rest: Result<Decoded, CodecError>): Result<Decoded, CodecError> {
    if rest.Err? then rest else Ok(Decoded(done.bytes + rest.value.bytes, done.symbols + rest.value.symbols))
  }

  lemma JoinedBehind(done: Decoded, piece: seq<byte>, symbol: nat, rest: Result<Decoded, CodecError>)
    ensures Joined(done, Behind(piece, symbol, rest)) ==
            Joined(Decoded(done.bytes + piece, done.symbols + [symbol]), rest)
  {
    if rest.Ok? {
      assert done.bytes + (piece + rest.value.bytes) == done.bytes + piece + rest.value.bytes;
      assert done.symbols + ([symbol] + rest.value.symbols) == done.symbols + [symbol] + rest.value.symbols;
    }
  }

  lemma JoinedNothing(r: Result<Decoded, CodecError>)
    ensures Joined(Decoded([], []), r) == r
  {
    if r.Ok? {
      assert [] + r.value.bytes == r.value.bytes && [] + r.value.symbols == r.value.symbols;
    }
  }

  /** The next symbol from the decoder, under the window brought up to date. */
  method NextSymbol(state: WindowedModelState, dec: RangeDecoder, tokens: seq<nat>) returns (r: Result<nat, CodecError>)
    requires Follows(state, tokens) && dec.Valid()
    modifies state, state.cache, state.workspace, state.scratch, dec
    ensures dec.Valid() && (state.cache == old(state.cache) || fresh(state.cache))
    ensures r == DecodeNext(state.settings, WindowOf(state.settings, tokens), old(dec.State()), dec.input).1
    ensures r.Ok? ==>
              && dec.State() ==
                 DecodeNext(state.settings, WindowOf(state.settings, tokens), old(dec.State()), dec.input).0
              && Follows(state, tokens) && state.context == WindowOf(state.settings, tokens)
              && Spent(state, |tokens|) == old(Spent(state, |tokens|))
              && state.windowStart == SyncedStart(|tokens|, state.settings.nCtx, state.settings.overlap)
  {
    hide ValidLayout, PrefixStart, ForwardSteps, NextWindowStart, DecodeNext, LogitsIn, DecoderInv, Spent, HistoryOf;
    var synced := SyncTo(state, tokens);
    if synced.Err? {
      NoLogitsNoSymbol(state.settings, WindowOf(state.settings, tokens), dec.State(), dec.input);
      return Err(synced.error);
    }
    r := state.DecodeSymbolFrom(dec);
  }

  lemma NoLogitsNoSymbol(c: Settings, window: seq<nat>, d: DecoderState, input: seq<byte>)
    requires ValidLayout(c.model) && DecoderInv(d) && window != [] && LogitsIn(c, window).Err?
    ensures DecodeNext(c, window, d, input).1 == Err(LogitsIn(c, window).error)
  {
  }

  /** One turn of the decoding loop: the new context and what has been decoded. */
  method DecodeTurn(state: WindowedModelState, dec: RangeDecoder, t: Tokenizer, tokens: seq<nat>, done: Decoded,
                    need: nat)
    returns (r: Result<(seq<nat>, Decoded), CodecError>)
    requires StandsAfter(state, done.symbols, tokens) && dec.Valid() && |done.bytes| < need
    modifies state, state.cache, state.workspace, state.scratch, dec
    ensures dec.Valid() && (state.cache == old(state.cache) || fresh(state.cache))
    ensures var before := DecodeBytes(state.settings, t, tokens, old(dec.State()), dec.input,
                                      SaturatingSub(need, |done.bytes|));
            if r.Err? then before == Err(r.error)
            else
              var (next, more) := r.value;
              && StandsAfter(state, more.symbols, next) && |more.bytes| > |done.bytes|
              && Joined(done, before) ==
                 Joined(more, DecodeBytes(state.settings, t, next, dec.State(), dec.input,
                                          SaturatingSub(need, |more.bytes|)))
  {
    hide ValidLayout, PrefixStart, ForwardSteps, NextWindowStart, DecodeNext, DecoderInv, Spent, Piece, DecodeBytes;
    hide SyncedStart, Joined, Follows, Usable, ValidateWindow, WindowedModelState.Valid, PushAfter, TokensIn;
    hide EndsInEscape, WindowOf, SymbolIsToken;
    FollowsUsable(state, tokens);
    UsableLayout(state.settings);
    var c := state.settings;
    ghost var left := SaturatingSub(need, |done.bytes|);
    DecodeBytesTurn(c, t, tokens, dec.State(), dec.input, left);
    SyncIsIdempotent(|tokens|, c.nCtx, c.overlap);
    var symbol := NextSymbol(state, dec, tokens);
    if symbol.Err? {
      return Err(symbol.error);
    }
    var piece := Piece(c, t, symbol.value);
    if piece.Err? {
      return Err(piece.error);
    }
    var next := PushSymbol(state, tokens, symbol.value);
    if next.Err? {
      return Err(next.error);
    }
    var more := Decoded(done.bytes + piece.value, done.symbols + [symbol.value]);
    EndsWith(c, done.symbols, symbol.value);
    JoinedBehind(done, piece.value, symbol.value,
                 DecodeBytes(c, t, next.value, dec.State(), dec.input, SaturatingSub(left, |piece.value|)));
    r := Ok((next.value, more));
  }

  method DecodeAll(state: WindowedModelState, dec: RangeDecoder, t: Tokenizer, need: nat)
    returns (r: Result<Decoded, CodecError>)
    requires StandsAfter(state, [], []) && dec.Valid()
    modifies state, state.cache, state.workspace, state.scratch, dec
    ensures r == DecodeBytes(state.settings, t, [], old(dec.State()), dec.input, need)
    ensures r.Ok? ==> StandsAfter(state, r.value.symbols, TokensIn(r.value.symbols, state.settings.model.vocab))
  {
    hide StandsAfter, DecodeBytes, DecoderInv, ValidLayout, TokensIn;
    StandsUsable(state, [], []);
    var c := state.settings;
    var tokens: seq<nat>, done := [], Decoded([], []);
    ghost var start := dec.State();
    JoinedNothing(DecodeBytes(c, t, [], start, dec.input, need));
    while |done.bytes| < need
      invariant dec.Valid() && (state.cache == old(state.cache) || fresh(state.cache))
      invariant StandsAfter(state, done.symbols, tokens)
      invariant DecodeBytes(c, t, [], start, dec.input, need) ==
                Joined(done, DecodeBytes(c, t, tokens, dec.State(), dec.input, SaturatingSub(need, |done.bytes|)))
      decreases need - |done.bytes|
    {
      var turn := DecodeTurn(state, dec, t, tokens, done, need);
      if turn.Err? {
        return Err(turn.error);
      }
      tokens, done := turn.value.0, turn.value.1;
    }
    StandsUsable(state, done.symbols, tokens);
    NothingDecoded(c, t, tokens, dec.State(), dec.input);
    assert done.bytes + [] == done.bytes && done.symbols + [] == done.symbols;
    r := Ok(done);
  }

  lemma StandsUsable(state: WindowedModelState, done: seq<nat>, tokens: seq<nat>)
    requires StandsAfter(state, done, tokens)
    ensures Usable(state.settings) && tokens == TokensIn(done, state.settings.model.vocab)
  {
    hide TokensIn, PrefixStart;
  }

  lemma FollowsUsable(state: WindowedModelState, tokens: seq<nat>)
    requires Follows(state, tokens)
    ensures Usable(state.settings)
  {
  }

  /** The decoding loop, which counts bytes, not symbols. It takes the forward steps of encoding what it decodes. */
  method DecodeBytesWithModel(c: Settings, t: Tokenizer, payload: seq<byte>, byteLen: nat)
    returns (r: Result<Decoded, CodecError>, ghost steps: nat)
    requires ValidLayout(c.model)
    ensures r == DecodePayload(c, t, payload, byteLen)
    ensures r.Ok? ==>
              && c.overlap < c.nCtx
              && steps == ForwardSteps(|TokensIn(r.value.symbols, c.model.vocab)|, EndsInEscape(c, r.value.symbols),
                                       c.nCtx, c.overlap)
  {
    hide ValidLayout, StartUp, DecodeBytes, DecoderInv, DecoderNew, PrefixStart, StandsAfter, ForwardSteps;
    steps := 0;
    var checked := CheckedWindow(c);
    if checked.Err? {
      return Err(checked.error), 0;
    }
    var dec := RangeDecoder.Open(payload);
    if dec.Err? {
      return Err(Coding(dec.error)), 0;
    }
    var state := WindowedModelState.New(c);
    if state.Err? {
      return Err(state.error), 0;
    }
    AtTheStart(state.value);
    r := DecodeAll(state.value, dec.value, t, byteLen);
    if r.Ok? {
      StandsMeans(state.value, r.value.symbols, TokensIn(r.value.symbols, c.model.vocab));
      steps := state.value.steps;
    }
  }

  // ----- files -----

  method CompressFile(c: Settings, t: Tokenizer, input: seq<byte>) returns (r: Result<seq<byte>, CodecError>)
    requires ValidLayout(c.model) && Capped(t)
    ensures r == Compress(c, t, input)
  {
    hide EncodeSymbols, ValidLayout;
    var stream := CodecSymbolStream(t, input);
    if stream.Err? {
      return Err(Detokenizing(stream.error));
    }
    ghost var steps;
    r, steps := EncodeSymbolsWithModel(c, Numbers(stream.value, c.model.vocab));
  }

  method DecompressFile(c: Settings, t: Tokenizer, payload: seq<byte>, originalLength: nat)
    returns (r: Result<seq<byte>, CodecError>)
    requires ValidLayout(c.model)
    ensures r == Decompress(c, t, payload, originalLength)
  {
    hide EncodeSymbols, ValidLayout, DecodePayload;
    ghost var steps;
    var decoded, canonical;
    decoded, steps := DecodeBytesWithModel(c, t, payload, originalLength);
    if decoded.Err? {
      return Err(decoded.error);
    }
    canonical, steps := EncodeSymbolsWithModel(c, decoded.value.symbols);
    if canonical.Err? {
      return Err(canonical.error);
    }
    if canonical.value != payload {
      return Err(NotCanonical);
    }
    DecodedLongEnough(c, t, payload, originalLength);
    r := Ok(decoded.value.bytes[..originalLength]);
  }

  lemma DecodedLongEnough(c: Settings, t: Tokenizer, payload: seq<byte>, need: nat)
    requires ValidLayout(c.model) && DecodePayload(c, t, payload, need).Ok?
    ensures |DecodePayload(c, t, payload, need).value.bytes| >= need
  {
  }
}
