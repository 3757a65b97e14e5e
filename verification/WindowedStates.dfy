/** The state that slides the window: a cache, a workspace and logits reused from symbol to symbol. */
module WindowedStates {
  import opened Outcomes
  import opened RangeCoder
  import opened Distributions
  import opened Windows
  import opened Llama
  import opened KvCaches
  import opened Forward
  import opened Workspaces
  import opened Codec

  lemma {:induction false} FirstFailingToken(m: Model, tokens: seq<nat>, i: nat)
    requires ValidLayout(m) && i < |tokens| && HistoryOf(m, tokens[..i + 1]).Err?
    ensures HistoryOf(m, tokens) == HistoryOf(m, tokens[..i + 1])
    decreases |tokens|
  {
    hide Step;
    var n := |tokens| - 1;
    if i < n {
      assert tokens[..n][..i + 1] == tokens[..i + 1];
      FirstFailingToken(m, tokens[..n], i);
    } else {
      assert tokens[..i + 1] == tokens;
    }
  }

  /** The tokens a window has room for. */
  function Fitting(c: Settings, tokens: seq<nat>): seq<nat> {
    if |tokens| <= c.nCtx then tokens else tokens[..c.nCtx]
  }

  /** What replaying tokens into a new cache gives; too many of them overrun the window, if none fails before. */
  function ReplayOf(c: Settings, tokens: seq<nat>): Result<(Vec, History), CodecError>
    requires ValidLayout(c.model)
  {
    match HistoryOf(c.model, Fitting(c, tokens))
    case Err(e) => Err(Forwarding(e))
    case Ok(replay) => if |tokens| > c.nCtx then Err(WindowOverrun) else Ok(replay)
  }

  class WindowedModelState {
    const settings: Settings
    const rope: RopeTables
    const workspace: ForwardWorkspace
    const uniformCdf: Cdf
    const scratch: CdfScratch
    var windowStart: nat
    var contextLen: nat
    var cache: KvCache
    var logits: Vec
    /** The tokens forwarded since the cache was new, and how many forward steps there have been in all. */
    ghost var context: seq<nat>
    ghost var steps: nat

    /** What no step changes. */
    ghost predicate Equipped()
      reads this, workspace
    {
      var m := settings.model;
      && Usable(settings)
      && IsRope(rope, m) && rope.positions == settings.nCtx
      && workspace.Sized() && workspace.config == m.config && workspace.maxContext == settings.nCtx
      && WellFormed(uniformCdf) && UniformReference(Alphabet(settings)) == Ok(uniformCdf.freq)
      && |logits| == m.vocab
    }

    /** The cache and the logits are those of replaying `context` from nothing. */
    ghost predicate Tracks()
      reads this, cache
      requires ValidLayout(settings.model)
    {
      && cache.config == settings.model.config
      && contextLen == |context| <= settings.nCtx
      && var replay := HistoryOf(settings.model, context);
      && replay.Ok?
      && CacheHolds(cache, replay.value.1)
      && (context != [] ==> logits == replay.value.0)
    }

    ghost predicate Valid()
      reads this, cache, workspace
    {
      Equipped() && Tracks()
    }

    constructor (settings: Settings, rope: RopeTables, uniformCdf: Cdf)
      requires Usable(settings) && IsRope(rope, settings.model) && rope.positions == settings.nCtx
      requires WellFormed(uniformCdf) && UniformReference(Alphabet(settings)) == Ok(uniformCdf.freq)
      ensures Valid() && this.settings == settings && windowStart == 0 && context == [] && steps == 0
      ensures fresh(cache) && fresh(workspace) && fresh(scratch)
    {
      hide IsRope, WellFormed, Holds;
      this.settings, this.rope, this.uniformCdf := settings, rope, uniformCdf;
      windowStart, contextLen, context, steps := 0, 0, [], 0;
      workspace := new ForwardWorkspace(settings.model.config, settings.nCtx);
      scratch := new CdfScratch();
      cache := new KvCache(settings.model.config);
      logits := seq(settings.model.vocab, _ => 0);
    }

    static method New(settings: Settings) returns (r: Result<WindowedModelState, CodecError>)
      requires Usable(settings)
      ensures StartUp(settings).Ok? <==> r.Ok?
      ensures r.Err? ==> r.error == StartUp(settings).error
      ensures r.Ok? ==>
                var s := r.value;
                && fresh(s) && fresh(s.cache) && fresh(s.workspace) && fresh(s.scratch)
                && s.Valid() && s.settings == settings && s.windowStart == 0 && s.context == [] && s.steps == 0
    {
      hide IsRope, WellFormed, FiniteAngles;
      var rope := LlamaTables(settings.model, settings.nCtx);
      if rope.Err? {
        return Err(Forwarding(rope.error));
      }
      var uniform := UniformCdf(Alphabet(settings));
      if uniform.Err? {
        return Err(Distributing(uniform.error));
      }
      var state := new WindowedModelState(settings, rope.value, uniform.value);
      r := Ok(state);
    }

    lemma StepFits(hist: History)
      requires Equipped() && cache.config == settings.model.config && contextLen < settings.nCtx
      requires CacheHolds(cache, hist)
      ensures workspace.Sized() && ValidLayout(settings.model) && cache.Valid()
      ensures workspace.Fits(settings.model, contextLen, rope, cache, logits) && IsRope(rope, settings.model)
    {
    }

    /** Forward one token at the next position of the cache. */
    method Advance(token: nat) returns (r: Result<(), CodecError>)
      requires Valid()
      modifies this`logits, this`contextLen, this`context, this`steps, cache, workspace
      ensures Equipped()
      ensures old(contextLen) >= settings.nCtx ==> r == Err(WindowOverrun)
      ensures old(contextLen) < settings.nCtx ==>
                var replay := HistoryOf(settings.model, old(context) + [token]);
                if replay.Err? then r == Err(Forwarding(replay.error))
                else r == Ok(()) && Valid() && context == old(context) + [token] && steps == old(steps) + 1
    {
      if contextLen >= settings.nCtx {
        return Err(WindowOverrun);
      }
      hide CacheHolds, IsRope, WellFormed, Step, ValidLayout, ForwardWorkspace.Fits, UniformReference, ValidRows;
      hide HistoryOf;
      OneMoreToken(settings.model, context, token);
      r := Forward(token, HistoryOf(settings.model, context).value.1);
      if r.Ok? {
        Record(token);
      }
    }

    /** One more token is in the window. */
    method Record(token: nat)
      requires Equipped() && cache.config == settings.model.config && contextLen == |context| < settings.nCtx
      requires var replay := HistoryOf(settings.model, context + [token]);
               replay.Ok? && CacheHolds(cache, replay.value.1) && logits == replay.value.0
      modifies this`contextLen, this`context, this`steps
      ensures Valid() && context == old(context) + [token] && steps == old(steps) + 1
    {
      hide CacheHolds, IsRope, WellFormed, ValidLayout, HistoryOf, UniformReference;
      contextLen := contextLen + 1;
      context := context + [token];
      steps := steps + 1;
    }

    /** The forward step itself. */
    method Forward(token: nat, ghost hist: History) returns (r: Result<(), CodecError>)
      requires Equipped() && cache.config == settings.model.config && contextLen < settings.nCtx
      requires CacheHolds(cache, hist) && ValidHistory(settings.model.config, hist, contextLen)
      modifies this`logits, cache, workspace
      ensures Equipped()
      ensures var step := Step(settings.model, hist, contextLen, token);
              if step.Err? then r == Err(Forwarding(step.error))
              else r == Ok(()) && logits == step.value.0 && CacheHolds(cache, step.value.1)
    {
      hide CacheHolds, IsRope, WellFormed, ValidHistory, Step, ValidLayout, ForwardWorkspace.Fits, IsFlat;
      StepFits(hist);
      var done;
      done, logits := workspace.ForwardOne(settings.model, token, contextLen, rope, cache, logits, hist);
      r := if done.Err? then Err(Forwarding(done.error)) else Ok(());
    }

    /** Start again from a new cache. */
    method Replay(start: nat, tokens: seq<nat>) returns (r: Result<(), CodecError>)
      requires Equipped()
      modifies this, workspace
      ensures Equipped() && fresh(cache) && windowStart == start
      ensures var replay := ReplayOf(settings, tokens);
              if replay.Err? then r == Err(replay.error)
              else r == Ok(()) && Valid() && context == tokens && steps == old(steps) + |tokens|
    {
      hide CacheHolds, IsRope, WellFormed, ValidLayout, HistoryOf;
      NewCache();
      windowStart := start;
      for i := 0 to |tokens|
        invariant Valid() && context == tokens[..i] && steps == old(steps) + i
        invariant windowStart == start && fresh(cache)
      {
        r := ReplayNext(tokens, i);
        if r.Err? {
          return;
        }
      }
      assert tokens[..|tokens|] == tokens;
      r := Ok(());
    }

    method ReplayNext(tokens: seq<nat>, i: nat) returns (r: Result<(), CodecError>)
      requires Valid() && i < |tokens| && context == tokens[..i]
      modifies this`logits, this`contextLen, this`context, this`steps, cache, workspace
      ensures Equipped()
      ensures r.Err? ==> ReplayOf(settings, tokens).Err? && r.error == ReplayOf(settings, tokens).error
      ensures r.Ok? ==> Valid() && context == tokens[..i + 1] && steps == old(steps) + 1
    {
      hide CacheHolds, IsRope, WellFormed, ValidLayout, HistoryOf;
      assert tokens[..i] + [tokens[i]] == tokens[..i + 1];
      r := Advance(tokens[i]);
      if r.Err? && i < settings.nCtx {
        var fit := Fitting(settings, tokens);
        assert fit[..i + 1] == tokens[..i + 1];
        FirstFailingToken(settings.model, fit, i);
      }
    }

    method NewCache()
      requires Equipped()
      modifies this`cache, this`logits, this`contextLen, this`context
      ensures Equipped() && fresh(cache) && Valid() && context == []
    {
      hide IsRope, WellFormed, Holds;
      cache := new KvCache(settings.model.config);
      logits := seq(|logits|, _ => 0);
      contextLen, context := 0, [];
    }

    /** Move the window if it is full. Afterwards the cache and the logits are those of replaying the window's tokens
        into a new cache, and there is room for one more token. */
    method Sync(pos: nat, tokens: seq<nat>) returns (r: Result<(), CodecError>)
      requires Valid() && windowStart <= |tokens| && context == tokens[windowStart..]
      modifies this, cache, workspace
      ensures Equipped() && (cache == old(cache) || fresh(cache))
      ensures pos != |tokens| ==> r == Err(PositionMismatch)
      ensures pos == |tokens| ==>
                var start := NextWindowStart(pos, old(windowStart), settings.nCtx, settings.overlap);
                && start <= pos
                && var replay := HistoryOf(settings.model, tokens[start..]);
                   if replay.Err? then r == Err(Forwarding(replay.error))
                   else
                     && r == Ok(()) && Valid() && windowStart == start && context == tokens[start..]
                     && contextLen < settings.nCtx
                     && steps == old(steps) + (if start != old(windowStart) then settings.overlap else 0)
    {
      hide IsRope, WellFormed, CacheHolds, ValidLayout, HistoryOf;
      if pos != |tokens| {
        return Err(PositionMismatch);
      }
      var start := NextWindowStart(pos, windowStart, settings.nCtx, settings.overlap);
      if start != windowStart {
        r := Replay(start, tokens[start..pos]);
        assert tokens[start..pos] == tokens[start..];
      } else {
        r := Ok(());
      }
    }

    /** The slot of a symbol, computed from the logits in place. */
    method SymbolRange(symbol: nat) returns (r: Result<Slot, CodecError>)
      requires Valid()
      ensures r == SlotIn(settings, context, symbol)
      ensures r.Ok? ==> IsModelSlot(settings, context, symbol, r.value)
      ensures r.Err? ==> IsSlotError(settings, context, symbol, r.error)
    {
      SlotWrittenOut(settings, context, symbol);
      hide IsModelSlot, IsSlotError;
      if contextLen == 0 {
        return Lift(UniformSymbolRange(symbol, |uniformCdf.freq|));
      }
      var slot := LogitsToSymbolRange(settings.weigh, logits, symbol, Tail(settings));
      r := Lift(slot);
    }

    /** Decode the next symbol and advance the decoder by its slot. */
    method DecodeSymbolFrom(dec: RangeDecoder) returns (r: Result<nat, CodecError>)
      requires Valid() && dec.Valid()
      modifies dec, scratch
      ensures dec.Valid()
      ensures (dec.State(), r) == DecodeNext(settings, context, old(dec.State()), dec.input)
      ensures r.Ok? ==> IsDecoded(settings, context, old(dec.State()), dec.input, r.value, dec.State())
      ensures r.Err? ==> IsDecodeError(settings, context, old(dec.State()), dec.input, r.error)
    {
      hide IsDecoded, IsDecodeError;
      DecodeWrittenOut(settings, context, dec.State(), dec.input);
      if contextLen == 0 {
        r := DecodeUniform(dec);
      } else {
        r := DecodeFromLogits(dec);
      }
    }

    method DecodeUniform(dec: RangeDecoder) returns (r: Result<nat, CodecError>)
      requires Valid() && dec.Valid() && context == []
      modifies dec
      ensures dec.Valid()
      ensures (dec.State(), r) == DecodeNext(settings, context, old(dec.State()), dec.input)
    {
      var value := dec.NextFreq(uniformCdf.total);
      if value.Err? {
        return Err(Coding(value.error));
      }
      var found := value.value;
      TableLookup(uniformCdf, found);
      var symbol := SymbolForValidated(uniformCdf, found);
      if symbol.None? {
        return Err(LookupFailed(found));
      }
      var s := symbol.value;
      var done := dec.AdvanceBy(Slot(uniformCdf.cum[s], uniformCdf.freq[s], uniformCdf.total));
      r := if done.Err? then Err(Coding(done.error)) else Ok(s);
    }

    method DecodeFromLogits(dec: RangeDecoder) returns (r: Result<nat, CodecError>)
      requires Valid() && dec.Valid() && context != []
      modifies dec, scratch`decoderFreq
      ensures dec.Valid()
      ensures (dec.State(), r) == DecodeNext(settings, context, old(dec.State()), dec.input)
    {
      var dist := scratch.LogitsToDecoderDistribution(settings.weigh, logits, Tail(settings));
      if dist.Err? {
        return Err(Distributing(dist.error));
      }
      ghost var freq := FrequenciesIn(settings, context).value;
      var value := dec.NextFreq(dist.value.total);
      if value.Err? {
        return Err(Coding(value.error));
      }
      var position := value.value;
      var found := FindSymbol(dist.value, position, freq);
      if found.None? {
        return Err(LookupFailed(position));
      }
      var (symbol, slot) := found.value;
      var done := dec.AdvanceBy(slot);
      r := if done.Err? then Err(Coding(done.error)) else Ok(symbol);
    }
  }
}
