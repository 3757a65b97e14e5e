/** The slow reference: every token of a context forwarded with a workspace made for it alone. */
module FreshReplays {
  import opened Bits
  import opened Outcomes
  import opened Floats
  import opened RangeCoder
  import opened Distributions
  import opened Llama
  import opened KvCaches
  import opened Forward
  import opened Workspaces
  import opened Codec
  import opened WindowedStates

  /** One token in a workspace just large enough for its position. */
  method ForwardFresh(m: Model, token: nat, pos: nat, rope: RopeTables, cache: KvCache, stale: Vec, ghost hist: History)
    returns (r: Result<(), ModelError>, logits: Vec)
    requires ValidLayout(m) && cache.Valid() && IsRope(rope, m) && pos < rope.positions && |stale| == m.vocab
    requires cache.config == m.config && CacheHolds(cache, hist) && ValidHistory(m.config, hist, pos)
    modifies cache
    ensures cache.Valid() && |logits| == |stale|
    ensures Reported(Step(m, hist, pos, token), r)
    ensures r.Ok? ==>
              && logits == Step(m, hist, pos, token).value.0
              && CacheHolds(cache, Step(m, hist, pos, token).value.1)
  {
    hide CacheHolds, IsFlat, Embed, Layers, Output;
    if pos >= m.config.contextLength {
      return Err(Shape), stale;
    }
    var workspace := ForwardWorkspace.New(m.config, m.output.rows, pos + 1);
    r, logits := workspace.value.ForwardOne(m, token, pos, rope, cache, stale, hist);
  }

  /** A whole context from an empty cache. */
  method LogitsFresh(m: Model, context: seq<nat>, rope: RopeTables) returns (r: Result<Vec, ModelError>)
    requires ValidLayout(m) && IsRope(rope, m) && |context| <= rope.positions && context != []
    ensures r == LogitsOf(m, context)
  {
    hide CacheHolds, IsRope, Step, ValidHistory, ValidLayout;
    var cache := EmptyCache(m);
    var logits: Vec := seq(m.vocab, _ => 0);
    assert context[..0] == [];
    for pos := 0 to |context|
      invariant HistoryOf(m, context[..pos]).Ok? && |logits| == m.vocab && fresh(cache)
      invariant cache.config == m.config && CacheHolds(cache, HistoryOf(m, context[..pos]).value.1) && cache.Valid()
      invariant pos > 0 ==> logits == HistoryOf(m, context[..pos]).value.0
    {
      ghost var hist := HistoryOf(m, context[..pos]).value.1;
      assert context[..pos] + [context[pos]] == context[..pos + 1];
      OneMoreToken(m, context[..pos], context[pos]);
      var done;
      done, logits := ForwardFresh(m, context[pos], pos, rope, cache, logits, hist);
      if done.Err? {
        FirstFailingToken(m, context, pos);
        return Err(done.error);
      }
    }
    assert context[..|context|] == context;
    r := Ok(logits);
  }

  method EmptyCache(m: Model) returns (cache: KvCache)
    requires ValidLayout(m)
    ensures fresh(cache) && cache.Valid() && cache.config == m.config
    ensures HistoryOf(m, []).Ok? && CacheHolds(cache, HistoryOf(m, []).value.1)
  {
    hide Holds;
    cache := new KvCache(m.config);
  }

  lemma {:induction false} FlatPrefix(at: (nat, nat) -> F32, n: nat, positions: nat, half: nat)
    requires n <= positions && AllFinite(Flat(at, positions, half))
    ensures AllFinite(Flat(at, n, half))
    decreases positions
  {
    if n < positions {
      var (before, last) := (Flat(at, positions - 1, half), Angles(at, positions - 1, half));
      forall i | 0 <= i < |before|
        ensures IsFinite(before[i])
      {
        assert (before + last)[i] == before[i];
      }
      FlatPrefix(at, n, positions - 1, half);
    }
  }

  /** What the slow reference finds: it fails where the rotation tables for its context do, and otherwise gives the
      distribution of the codec's window. */
  function ReferenceIn(c: Settings, context: seq<nat>): Result<seq<u32>, CodecError>
    requires ValidLayout(c.model)
  {
    if |context| > c.nCtx || c.nCtx > c.model.config.contextLength then Err(WindowOverrun)
    else if context != [] && !FiniteAngles(c.model, |context|) then Err(Forwarding(NonFinite))
    else FrequenciesIn(c, context)
  }

  /** Once the codec has started up, the tables of every context in its window are finite. */
  lemma ReferenceIsWindow(c: Settings, context: seq<nat>)
    requires Usable(c) && StartUp(c).Ok? && |context| <= c.nCtx
    ensures ReferenceIn(c, context) == FrequenciesIn(c, context)
  {
    hide FrequenciesIn, Flat;
    var half := c.model.config.ropeDimensionCount / 2;
    FlatPrefix(c.model.kernels.cosAt, |context|, c.nCtx, half);
    FlatPrefix(c.model.kernels.sinAt, |context|, c.nCtx, half);
  }

  /** A table of these frequencies holds their slots. */
  lemma TableOfSlots(c: Settings, context: seq<nat>)
    requires ValidLayout(c.model)
    ensures forall cdf: Cdf ::
              FrequenciesIn(c, context).Ok? && Distributions.IsTable(cdf, FrequenciesIn(c, context).value) ==>
              forall s :: 0 <= s < |cdf.freq| ==>
                Slot(cdf.cum[s], cdf.freq[s], cdf.total) == SlotOf(FrequenciesIn(c, context).value, s)
  {
    hide FrequenciesIn, Total;
  }

  /** The full table for a context, replayed from nothing in fresh workspaces with tables no longer than the context. */
  method CdfForContext(c: Settings, context: seq<nat>) returns (r: Result<Cdf, CodecError>)
    requires ValidLayout(c.model) && c.escapes
    ensures r.Ok? <==> ReferenceIn(c, context).Ok?
    ensures r.Ok? ==> Distributions.IsTable(r.value, ReferenceIn(c, context).value)
    ensures r.Err? ==> r.error == ReferenceIn(c, context).error
    ensures r.Ok? ==> forall s :: 0 <= s < |r.value.freq| ==>
                        IsModelSlot(c, context, s, Slot(r.value.cum[s], r.value.freq[s], r.value.total))
    ensures r.Ok? ==> |r.value.freq| == |r.value.cum| == c.model.vocab + 256
    ensures r.Err? ==>
              if |context| > c.nCtx || c.nCtx > c.model.config.contextLength then r.error == WindowOverrun
              else if context != [] && !FiniteAngles(c.model, |context|) then r.error == Forwarding(NonFinite)
              else IsModelError(c, context, r.error)
  {
    hide IsModelSlot, IsModelError, LogitsOf, Reference, Flat, Total, Cumulative, SlotOf, IsAccepted, IsRefused;
    FrequenciesWrittenOut(c, context);
    TableOfSlots(c, context);
    if |context| > c.nCtx || c.nCtx > c.model.config.contextLength {
      return Err(WindowOverrun);
    }
    if context == [] {
      var uniform := UniformCdf(c.model.vocab + BYTE_ESCAPE_SYMBOLS);
      return Lift(uniform);
    }
    var rope := LlamaTables(c.model, |context|);
    if rope.Err? {
      return Err(Forwarding(rope.error));
    }
    var logits := LogitsFresh(c.model, context, rope.value);
    if logits.Err? {
      return Err(Forwarding(logits.error));
    }
    var scratch := new CdfScratch();
    var table := scratch.LogitsToCdfWithByteEscapes(c.weigh, logits.value);
    if table.Err? {
      return Err(Distributing(table.error));
    }
    r := Ok(scratch.cdf);
  }
}
