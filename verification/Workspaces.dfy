/** The forward step as it runs: kernels that overwrite buffers which still hold an earlier token's values. */
module Workspaces {
  import opened Outcomes
  import opened Floats
  import opened Llama
  import opened KvCaches
  import opened InPlaceKernels
  import opened Forward
  import opened ForwardLaws

  // ----- kernels that write into a buffer -----

  /** Overwrite every element in turn, stopping at the first error. */
  method Fill(stale: Vec, f: nat -> Result<F32, ModelError>) returns (r: Result<(), ModelError>, out: Vec)
    ensures Wrote(Build(|stale|, f), r, stale, out)
  {
    out := stale;
    for i := 0 to |stale|
      invariant |out| == |stale|
      invariant Build(i, f).Ok? && Build(i, f).value == out[..i]
    {
      var value := f(i);
      if value.Err? {
        BuildStops(|stale|, f, i);
        return Err(value.error), out;
      }
      out := out[i := value.value];
      assert out[..i + 1] == out[..i] + [value.value];
    }
    assert out[..|stale|] == out;
    r := Ok(());
  }

  method NormInto(k: Kernels, x: Vec, weight: Vec, stale: Vec) returns (r: Result<(), ModelError>, out: Vec)
    ensures WroteExactly(|x|, Norm(k, x, weight), r, stale, out)
  {
    if |x| != |weight| || |x| != |stale| || x == [] {
      return Err(Shape), stale;
    }
    if !AllFinite(x) || !AllFinite(weight) || !IsFinite(k.normScale(x)) {
      return Err(NonFinite), stale;
    }
    r, out := Fill(stale, (i: nat) => if i < |x| then Checked(k.scaled(x[i], k.normScale(x), weight[i]))
                                      else Err(Shape));
  }

  method RowsInto(m: Matrix, x: Vec, q: Blocks, stale: Vec) returns (r: Result<(), ModelError>, out: Vec)
    ensures WroteExactly(m.rows, Rows(m, x, q), r, stale, out)
  {
    if |stale| != m.rows {
      return Err(Shape), stale;
    }
    var row: RowKernel := (i: nat) => m.dot(x, q, i);
    r, out := Fill(stale, (i: nat) => FiniteRow(row, i));
  }

  /** A product over activations that may have been quantised already; Q8K ones replace the old scratch. */
  method ProjectSharedInto(k: Kernels, m: Matrix, x: Vec, q8a: Blocks, q8k: Blocks, stale: Vec)
    returns (r: Result<(), ModelError>, out: Vec, q8k': Blocks)
    ensures WroteExactly(m.rows, ProjectShared(k, m, x, q8a), r, stale, out)
  {
    out, q8k' := stale, q8k;
    if |x| != m.cols || |stale| != m.rows {
      return Err(Shape), stale, q8k;
    }
    if !AllFinite(x) {
      return Err(NonFinite), stale, q8k;
    }
    match m.kind {
      case Plain =>
        r, out := RowsInto(m, x, [], stale);
      case NeedsQ8a =>
        r, out := RowsInto(m, x, q8a, stale);
      case NeedsQ8k =>
        var blocks := k.quantizeQ8k(x);
        if blocks.Err? {
          return Err(blocks.error), stale, q8k;
        }
        q8k' := blocks.value;
        r, out := RowsInto(m, x, q8k', stale);
    }
  }

  /** A product that quantises its own activations into the scratch first. */
  method ProjectInto(k: Kernels, m: Matrix, x: Vec, q8a: Blocks, q8k: Blocks, stale: Vec)
    returns (r: Result<(), ModelError>, out: Vec, q8a': Blocks, q8k': Blocks)
    ensures WroteExactly(m.rows, Project(k, m, x), r, stale, out)
  {
    out, q8a', q8k' := stale, q8a, q8k;
    if |x| != m.cols || |stale| != m.rows {
      return Err(Shape), stale, q8a, q8k;
    }
    if !AllFinite(x) {
      return Err(NonFinite), stale, q8a, q8k;
    }
    match m.kind {
      case Plain =>
        r, out := RowsInto(m, x, [], stale);
      case NeedsQ8a =>
        var blocks := k.quantizeQ8a(x);
        if blocks.Err? {
          return Err(blocks.error), stale, q8a, q8k;
        }
        q8a' := blocks.value;
        r, out := RowsInto(m, x, q8a', stale);
      case NeedsQ8k =>
        var blocks := k.quantizeQ8k(x);
        if blocks.Err? {
          return Err(blocks.error), stale, q8a, q8k;
        }
        q8k' := blocks.value;
        r, out := RowsInto(m, x, q8k', stale);
    }
  }

  method AddInto(k: Kernels, x: Vec, y: Vec) returns (r: Result<(), ModelError>, out: Vec)
    ensures Wrote(Add(k, x, y), r, x, out)
  {
    if |x| != |y| {
      return Err(Shape), x;
    }
    if !AllFinite(x) || !AllFinite(y) {
      return Err(NonFinite), x;
    }
    r, out := Fill(x, (i: nat) => if i < |x| then Checked(k.add(x[i], y[i])) else Err(Shape));
  }

  method BiasInto(k: Kernels, x: Vec, bias: Option<Vec>) returns (r: Result<(), ModelError>, out: Vec)
    ensures Wrote(AddBias(k, x, bias), r, x, out)
  {
    if bias.None? {
      return Ok(()), x;
    }
    r, out := AddInto(k, x, bias.value);
  }

  method BiasedInto(k: Kernels, m: Matrix, bias: Option<Vec>, x: Vec, q8a: Blocks, q8k: Blocks, stale: Vec)
    returns (r: Result<(), ModelError>, out: Vec, q8k': Blocks)
    ensures WroteExactly(m.rows, Biased(k, m, bias, x, q8a), r, stale, out)
  {
    hide ProjectShared, AddBias;
    r, out, q8k' := ProjectSharedInto(k, m, x, q8a, q8k, stale);
    if r.Ok? {
      r, out := BiasInto(k, out, bias);
    }
  }

  method SwigluInto(k: Kernels, gate: Vec, up: Vec, stale: Vec) returns (r: Result<(), ModelError>, out: Vec)
    ensures WroteExactly(|gate|, Swiglu(k, gate, up), r, stale, out)
  {
    if |gate| != |up| || |gate| != |stale| {
      return Err(Shape), stale;
    }
    if !AllFinite(gate) || !AllFinite(up) {
      return Err(NonFinite), stale;
    }
    r, out := Fill(stale, (i: nat) => if i < |gate| then Checked(k.swiglu(gate[i], up[i])) else Err(Shape));
  }

  method ScoresInto(k: Kernels, q: Vec, keys: Vec, stale: Vec) returns (r: Result<(), ModelError>, out: Vec)
    ensures Wrote(Scores(k, q, keys, |stale|), r, stale, out)
  {
    if q == [] || stale == [] || |keys| != |stale| * |q| {
      return Err(Shape), stale;
    }
    if !AllFinite(q) || !AllFinite(keys) {
      return Err(NonFinite), stale;
    }
    var n := |stale|;
    r, out := Fill(stale, (j: nat) => if j < n then Checked(k.score(q, SlotAt(keys, n, |q|, j))) else Err(Shape));
  }

  // ----- rotation tables -----

  /** Angles for the first `positions` positions, flattened; a position's angles do not depend on how many there are. */
  datatype RopeTables = RopeTables(positions: nat, half: nat, pairing: Pairing, cos: Vec, sin: Vec)

  ghost predicate IsRope(t: RopeTables, m: Model) {
    && t.half == m.config.ropeDimensionCount / 2 && t.pairing == m.config.pairing
    && IsFlat(t.cos, m.kernels.cosAt, t.positions, t.half)
    && IsFlat(t.sin, m.kernels.sinAt, t.positions, t.half)
  }

  ghost predicate IsFlat(flat: Vec, at: (nat, nat) -> F32, positions: nat, half: nat) {
    && |flat| == positions * half
    && forall p :: 0 <= p < positions ==> SlotAt(flat, positions, half, p) == Angles(at, p, half)
  }

  /** The angles of positions 0, 1, ... end to end. */
  function Flat(at: (nat, nat) -> F32, positions: nat, half: nat): Vec {
    if positions == 0 then [] else Flat(at, positions - 1, half) + Angles(at, positions - 1, half)
  }

  lemma {:induction false} FlatIsFlat(at: (nat, nat) -> F32, positions: nat, half: nat)
    ensures IsFlat(Flat(at, positions, half), at, positions, half)
  {
    if positions == 0 {
      assert 0 * half == 0;
    } else {
      FlatIsFlat(at, positions - 1, half);
      FlatGrows(Flat(at, positions - 1, half), at, positions - 1, half);
    }
  }

  method FlatAngles(at: (nat, nat) -> F32, positions: nat, half: nat) returns (flat: Vec)
    ensures flat == Flat(at, positions, half)
  {
    flat := [];
    for p := 0 to positions
      invariant flat == Flat(at, p, half)
    {
      ghost var before := flat;
      for j := 0 to half
        invariant flat == before + Angles(at, p, j)
      {
        flat := flat + [at(p, j)];
      }
    }
  }

  lemma FlatGrows(flat: Vec, at: (nat, nat) -> F32, positions: nat, half: nat)
    requires IsFlat(flat, at, positions, half)
    ensures IsFlat(flat + Angles(at, positions, half), at, positions + 1, half)
  {
    var longer := flat + Angles(at, positions, half);
    assert |longer| == (positions + 1) * half;
    forall p | 0 <= p < positions + 1
      ensures SlotAt(longer, positions + 1, half, p) == Angles(at, p, half)
    {
      SlotFits(p, positions + 1, half);
      if p < positions {
        SlotFits(p, positions, half);
        assert SlotAt(flat, positions, half, p) == Angles(at, p, half);
      }
    }
  }

  /** Whether every angle of the first positions is finite. */
  predicate FiniteAngles(m: Model, positions: nat) {
    var half := m.config.ropeDimensionCount / 2;
    AllFinite(Flat(m.kernels.cosAt, positions, half)) && AllFinite(Flat(m.kernels.sinAt, positions, half))
  }

  method LlamaTables(m: Model, positions: nat) returns (r: Result<RopeTables, ModelError>)
    requires ValidConfig(m.config)
    ensures r.Ok? ==> IsRope(r.value, m) && r.value.positions == positions
    ensures r.Ok? <==> positions > 0 && FiniteAngles(m, positions)
    ensures r.Err? ==> r.error == if positions == 0 then Shape else NonFinite
  {
    if positions == 0 {
      return Err(Shape);
    }
    var half := m.config.ropeDimensionCount / 2;
    var cos := FlatAngles(m.kernels.cosAt, positions, half);
    var sin := FlatAngles(m.kernels.sinAt, positions, half);
    FlatIsFlat(m.kernels.cosAt, positions, half);
    FlatIsFlat(m.kernels.sinAt, positions, half);
    if !AllFinite(cos) || !AllFinite(sin) {
      return Err(NonFinite);
    }
    r := Ok(RopeTables(positions, half, m.config.pairing, cos, sin));
  }

  // ----- the workspace -----

  /** Overwrite the part of a scratch buffer that starts at `start`. */
  function Splice(buf: Vec, start: nat, src: Vec): (r: Vec)
    requires start + |src| <= |buf|
    ensures |r| == |buf| && r[start..start + |src|] == src
  {
    buf[..start] + src + buf[start + |src|..]
  }

  /** Buffers that hold the rows of all layers; slots at later positions are arbitrary. */
  ghost predicate RowsHeld(c: Config, k: Vec, v: Vec, hd: nat, hist: History) {
    && |k| == |v| == SlotCount(c) * hd
    && |hist| == c.blockCount
    && forall l :: 0 <= l < |hist| ==> LayerHeld(c, k, v, hd, l, hist[l])
  }

  ghost predicate LayerHeld(c: Config, k: Vec, v: Vec, hd: nat, l: nat, rows: seq<Row>) {
    Holds(c, k, hd, l, Keys(rows)) && Holds(c, v, hd, l, Values(rows))
  }

  ghost predicate CacheHolds(cache: KvCache, hist: History)
    reads cache
  {
    cache.Valid() && RowsHeld(cache.config, cache.k, cache.v, cache.headDim, hist)
  }

  class ForwardWorkspace {
    const config: Config
    const maxContext: nat
    var x: Vec
    var h: Vec
    var q: Vec
    var k: Vec
    var v: Vec
    var attn: Vec
    var scores: Vec
    var probs: Vec
    var tmpD: Vec
    var gate: Vec
    var up: Vec
    var ff: Vec
    var q8a: Blocks
    var q8k: Blocks

    /** The buffers have their sizes; nothing is known about their contents. */
    ghost predicate Sized()
      reads this
    {
      && ValidConfig(config)
      && 0 < maxContext <= config.contextLength
      && |x| == |h| == |tmpD| == config.embeddingLength
      && |q| == |attn| == QLen(config)
      && |k| == |v| == KvLen(config)
      && |scores| == |probs| == config.headCount * maxContext
      && |gate| == |up| == |ff| == config.feedForwardLength
    }

    constructor (config: Config, maxContext: nat)
      requires ValidConfig(config) && 0 < maxContext <= config.contextLength
      ensures Sized() && this.config == config && this.maxContext == maxContext
    {
      this.config, this.maxContext := config, maxContext;
      var d, ff := config.embeddingLength, config.feedForwardLength;
      x, h, tmpD := seq(d, _ => 0), seq(d, _ => 0), seq(d, _ => 0);
      q, attn := seq(QLen(config), _ => 0), seq(QLen(config), _ => 0);
      k, v := seq(KvLen(config), _ => 0), seq(KvLen(config), _ => 0);
      scores, probs := seq(config.headCount * maxContext, _ => 0), seq(config.headCount * maxContext, _ => 0);
      gate, up, this.ff := seq(ff, _ => 0), seq(ff, _ => 0), seq(ff, _ => 0);
      q8a, q8k := [], [];
    }

    static method New(config: Config, vocab: nat, maxContext: nat) returns (r: Result<ForwardWorkspace, ModelError>)
      ensures r.Ok? <==> ValidConfig(config) && vocab > 0 && 0 < maxContext <= config.contextLength
      ensures r.Err? ==> r.error == Shape
      ensures r.Ok? ==>
                && fresh(r.value) && r.value.Sized()
                && r.value.config == config && r.value.maxContext == maxContext
    {
      if !ValidConfig(config) || vocab == 0 || maxContext == 0 || maxContext > config.contextLength {
        return Err(Shape);
      }
      var workspace := new ForwardWorkspace(config, maxContext);
      r := Ok(workspace);
    }

    /** Normalise, and fill the shared Q8A scratch if any of the matrices reads it. */
    method PrepareInput(m: Model, weight: Vec, ms: seq<Matrix>) returns (r: Result<(), ModelError>)
      requires Sized()
      modifies this`h, this`q8a
      ensures Sized()
      ensures Reported(Normed(m.kernels, weight, ms, x), r)
      ensures r.Ok? ==> Prepared(m.kernels, weight, ms, x, h, q8a)
    {
      hide Norm;
      r, h := NormInto(m.kernels, x, weight, h);
      if r.Err? {
        return;
      }
      if AnyQ8a(ms) {
        var blocks := m.kernels.quantizeQ8a(h);
        if blocks.Err? {
          return Err(blocks.error);
        }
        q8a := blocks.value;
      }
    }

    method ComputeProjections(m: Model, layer: Layer) returns (r: Result<(), ModelError>)
      requires Sized() && m.config == config && ValidLayer(config, layer)
      modifies this`h, this`q, this`k, this`v, this`q8a, this`q8k
      ensures Sized()
      ensures Reported(Projected(m, layer, x), r)
      ensures r.Ok? ==> Projected(m, layer, x).value == (q, k, v)
    {
      hide Normed, Prepared, Biased, HeadDim, QLen, KvLen, ValidConfig;
      var ms := [layer.wq, layer.wk, layer.wv];
      r := PrepareInput(m, layer.attentionNorm, ms);
      if r.Err? {
        return;
      }
      ScratchIrrelevant(m.kernels, layer.attentionNorm, ms, 0, layer.qBias, x, h, q8a);
      ScratchIrrelevant(m.kernels, layer.attentionNorm, ms, 1, layer.kBias, x, h, q8a);
      ScratchIrrelevant(m.kernels, layer.attentionNorm, ms, 2, layer.vBias, x, h, q8a);
      r, q, q8k := BiasedInto(m.kernels, layer.wq, layer.qBias, h, q8a, q8k, q);
      if r.Err? {
        return;
      }
      r, k, q8k := BiasedInto(m.kernels, layer.wk, layer.kBias, h, q8a, q8k, k);
      if r.Err? {
        return;
      }
      r, v, q8k := BiasedInto(m.kernels, layer.wv, layer.vBias, h, q8a, q8k, v);
    }

    /** Query, key and value of this position, from the residual stream alone. */
    method ComputeInputs(m: Model, layer: Layer, pos: nat, rope: RopeTables) returns (r: Result<(), ModelError>)
      requires Sized() && m.config == config && ValidLayer(config, layer)
      requires IsRope(rope, m) && pos < rope.positions
      modifies this`h, this`q, this`k, this`v, this`q8a, this`q8k
      ensures Sized()
      ensures Reported(Inputs(m, layer, pos, x), r)
      ensures r.Ok? ==> Inputs(m, layer, pos, x).value == (q, Row(k, v))
    {
      hide Projected, Rope, HeadDim;
      r := ComputeProjections(m, layer);
      if r.Err? {
        return;
      }
      var cos := SlotAt(rope.cos, rope.positions, rope.half, pos);
      var sin := SlotAt(rope.sin, rope.positions, rope.half, pos);
      r, q := ApplyRope(m.kernels, rope.pairing, q, config.headCount, HeadDim(config), cos, sin);
      if r.Err? {
        return;
      }
      r, k := ApplyRope(m.kernels, rope.pairing, k, config.headCountKv, HeadDim(config), cos, sin);
    }

    method MixIn(m: Model, layer: Layer) returns (r: Result<(), ModelError>)
      requires Sized() && m.config == config && ValidLayer(config, layer)
      modifies this`tmpD, this`x, this`q8a, this`q8k
      ensures Sized()
      ensures Reported(Mixed(m, layer, old(x), attn), r)
      ensures r.Ok? ==> Mixed(m, layer, old(x), attn).value == x
    {
      hide Project, Add;
      r, tmpD, q8a, q8k := ProjectInto(m.kernels, layer.wo, attn, q8a, q8k, tmpD);
      if r.Err? {
        return;
      }
      r, x := AddInto(m.kernels, x, tmpD);
    }

    method ComputeGates(m: Model, layer: Layer) returns (r: Result<(), ModelError>)
      requires Sized() && m.config == config && ValidLayer(config, layer)
      modifies this`h, this`gate, this`up, this`q8a, this`q8k
      ensures Sized()
      ensures Reported(Gated(m, layer, x), r)
      ensures r.Ok? ==> Gated(m, layer, x).value == (gate, up)
    {
      hide Normed, Prepared, ProjectShared;
      var ms := [layer.wGate, layer.wUp];
      r := PrepareInput(m, layer.ffnNorm, ms);
      if r.Err? {
        return;
      }
      UnbiasedScratchIrrelevant(m.kernels, layer.ffnNorm, ms, 0, x, h, q8a);
      UnbiasedScratchIrrelevant(m.kernels, layer.ffnNorm, ms, 1, x, h, q8a);
      r, gate, q8k := ProjectSharedInto(m.kernels, layer.wGate, h, q8a, q8k, gate);
      if r.Err? {
        return;
      }
      r, up, q8k := ProjectSharedInto(m.kernels, layer.wUp, h, q8a, q8k, up);
    }

    method FeedForward(m: Model, layer: Layer) returns (r: Result<(), ModelError>)
      requires Sized() && m.config == config && ValidLayer(config, layer)
      modifies this`h, this`gate, this`up, this`ff, this`tmpD, this`x, this`q8a, this`q8k
      ensures Sized()
      ensures Reported(Fed(m, layer, old(x)), r)
      ensures r.Ok? ==> Fed(m, layer, old(x)).value == x
    {
      hide Gated, Merged, HeadDim, QLen, KvLen, ValidConfig;
      r := ComputeGates(m, layer);
      if r.Err? {
        return;
      }
      r := MergeGates(m, layer);
    }

    method MergeGates(m: Model, layer: Layer) returns (r: Result<(), ModelError>)
      requires Sized() && m.config == config && layer.wDown.rows == config.embeddingLength
      modifies this`ff, this`tmpD, this`x, this`q8a, this`q8k
      ensures Sized()
      ensures Reported(Merged(m, layer, old(x), gate, up), r)
      ensures r.Ok? ==> Merged(m, layer, old(x), gate, up).value == x
    {
      hide Project, Add, Swiglu, HeadDim, QLen, KvLen, ValidConfig;
      r, ff := SwigluInto(m.kernels, gate, up, ff);
      if r.Err? {
        return;
      }
      r, tmpD, q8a, q8k := ProjectInto(m.kernels, layer.wDown, ff, q8a, q8k, tmpD);
      if r.Err? {
        return;
      }
      r, x := AddInto(m.kernels, x, tmpD);
    }

    /** One query head: its slices of the scratch buffers may hold anything beforehand. */
    method AttendOne(m: Model, layer: nat, rows: nat, cache: KvCache, head: nat) returns (r: Result<(), ModelError>)
      requires Sized() && m.config == config == cache.config && cache.Valid()
      requires layer < config.blockCount && 0 < rows <= maxContext && head < config.headCount
      modifies this`attn, this`scores, this`probs
      ensures Sized()
      ensures var hd, kv := HeadDim(config), KvHead(config, head);
              var spec := AttendHead(m.kernels, HeadOf(q, config.headCount, hd, head),
                                     PrefixOf(config, cache.k, hd, layer, kv, rows),
                                     PrefixOf(config, cache.v, hd, layer, kv, rows), rows, hd);
              && Reported(spec, r)
              && (r.Ok? ==> attn == WriteSlot(old(attn), config.headCount, hd, head, spec.value))
    {
      hide Scores, Softmax, Weighted, PrefixOf, WriteSlot;
      var hd, kv := HeadDim(config), KvHead(config, head);
      var keys := PrefixOf(config, cache.k, hd, layer, kv, rows);
      var values := PrefixOf(config, cache.v, hd, layer, kv, rows);
      if rows == 1 {
        attn := WriteSlot(attn, config.headCount, hd, head, values);
        return Ok(());
      }
      SlotFits(head, config.headCount, maxContext);
      var start := head * maxContext;
      var query := HeadOf(q, config.headCount, hd, head);
      var window: Vec;
      r, window := ScoresInto(m.kernels, query, keys, scores[start..start + rows]);
      scores := Splice(scores, start, window);
      if r.Err? {
        return;
      }
      r, window := SoftmaxInPlace(m.kernels, scores[start..start + rows]);
      probs := Splice(probs, start, window);
      if r.Err? {
        return;
      }
      r, window := WeightedValue(m.kernels, probs[start..start + rows], values,
                                 SlotAt(attn, config.headCount, hd, head));
      if r.Ok? {
        attn := WriteSlot(attn, config.headCount, hd, head, window);
      }
    }

    /** One more head of the attention output. */
    method AttendNext(m: Model, layer: nat, cache: KvCache, ghost rows: seq<Row>, count: nat, head: nat)
      returns (r: Result<(), ModelError>)
      requires Sized() && m.config == config == cache.config && cache.Valid()
      requires layer < config.blockCount && ValidRows(config, rows) && head < config.headCount
      requires LayerHeld(config, cache.k, cache.v, cache.headDim, layer, rows)
      requires 0 < count == |rows| <= maxContext
      requires HeadsDone(m, q, rows, attn, head)
      modifies this`attn, this`scores, this`probs
      ensures Sized()
      ensures Reported(AttendHeads(m, q, rows, head + 1), r)
      ensures r.Ok? ==> HeadsDone(m, q, rows, attn, head + 1)
    {
      hide AttendHead, Window, PrefixOf, WriteSlot, HeadOf, Holds;
      var hd := HeadDim(config);
      ghost var before := attn;
      WindowsInCache(config, cache.k, cache.v, hd, layer, rows, KvHead(config, head));
      r := AttendOne(m, layer, count, cache, head);
      ghost var spec := AttendHead(m.kernels, HeadOf(q, config.headCount, hd, head),
                                   Window(Keys(rows), config.headCountKv, hd, KvHead(config, head)),
                                   Window(Values(rows), config.headCountKv, hd, KvHead(config, head)), |rows|, hd);
      SlotFits(head, config.headCount, hd);
      assert (head + 1) * hd == head * hd + hd;
      if r.Ok? {
        WrittenThrough(before, config.headCount, hd, head, spec.value);
      }
    }

    /** All query heads over the rows a cache holds for a layer. */
    method AttendAll(m: Model, layer: nat, cache: KvCache, ghost rows: seq<Row>, count: nat)
      returns (r: Result<(), ModelError>)
      requires Sized() && m.config == config == cache.config && cache.Valid()
      requires layer < config.blockCount && ValidRows(config, rows)
      requires LayerHeld(config, cache.k, cache.v, cache.headDim, layer, rows)
      requires 0 < count == |rows| <= maxContext
      modifies this`attn, this`scores, this`probs
      ensures Sized()
      ensures Reported(AttendHeads(m, q, rows, config.headCount), r)
      ensures r.Ok? ==> AttendHeads(m, q, rows, config.headCount).value == attn
    {
      hide LayerHeld, HeadDim, HeadsDone, AttendHeads;
      NoHeads(m, q, rows, attn);
      for head := 0 to config.headCount
        invariant Sized() && HeadsDone(m, q, rows, attn, head)
      {
        r := AttendNext(m, layer, cache, rows, count, head);
        if r.Err? {
          FirstFailingHead(m, q, rows, attn, config.headCount, head);
          return;
        }
      }
      AllHeads(m, q, rows, attn);
      r := Ok(());
    }

    method StoreRow(layer: nat, pos: nat, cache: KvCache, ghost hist: History) returns (r: Result<(), ModelError>)
      requires Sized() && config == cache.config && pos < config.contextLength && layer < config.blockCount
      requires CacheHolds(cache, hist) && layer < |hist| && |hist[layer]| == pos
      modifies cache
      ensures cache.Valid()
      ensures Reported(Finite(Row(k, v)), r)
      ensures r.Ok? ==> CacheHolds(cache, hist[layer := hist[layer] + [Row(k, v)]])
    {
      hide RowsHeld, StoreHeads;
      ghost var k0, v0 := cache.k, cache.v;
      r := cache.Store(layer, pos, k, v);
      if r.Ok? {
        StoredRows(config, k0, v0, HeadDim(config), hist, layer, Row(k, v));
      }
    }

    /** One layer: its row goes to the cache at this position, its output to the residual stream. It succeeds exactly if
        there are vectors as `LayerRan` says, and these are among them. */
    method RunLayer(m: Model, layer: nat, pos: nat, cache: KvCache, rope: RopeTables, ghost hist: History)
      returns (r: Result<(), ModelError>)
      requires Sized() && m.config == config == cache.config && ValidLayout(m)
      requires IsRope(rope, m) && pos < rope.positions && pos < maxContext
      requires CacheHolds(cache, hist) && layer < |hist| && |hist[layer]| == pos && ValidRows(config, hist[layer])
      modifies this, cache
      ensures Sized() && cache.Valid()
      ensures Reported(LayerStep(m, m.layers[layer], old(x), hist[layer]), r)
      ensures r.Ok? ==>
                var spec := LayerStep(m, m.layers[layer], old(x), hist[layer]).value;
                && x == spec.0
                && CacheHolds(cache, hist[layer := hist[layer] + [spec.1]])
      ensures r.Ok? ==>
                exists t ::
                  && LayerRan(m, m.layers[layer], old(x), hist[layer], t) && x == t.out
                  && CacheHolds(cache, hist[layer := hist[layer] + [RowOf(t)]])
      ensures r.Err? ==> forall t :: !LayerRan(m, m.layers[layer], old(x), hist[layer], t)
    {
      hide LayerRan, LayerStep, IsRope, RowsHeld, ValidRows, HeadDim, QLen, KvLen, RowOf;
      HeldLayers(cache, hist);
      LayoutOfRows(m, layer);
      LayerDecided(m, m.layers[layer], x, hist[layer]);
      r := ComputeLayer(m, layer, pos, cache, rope, hist);
    }

    /** The layer's kernels in turn. */
    method ComputeLayer(m: Model, layer: nat, pos: nat, cache: KvCache, rope: RopeTables, ghost hist: History)
      returns (r: Result<(), ModelError>)
      requires Sized() && m.config == config == cache.config && ValidLayout(m)
      requires IsRope(rope, m) && pos < rope.positions && pos < maxContext
      requires CacheHolds(cache, hist) && layer < |hist| && |hist[layer]| == pos && ValidRows(config, hist[layer])
      modifies this, cache
      ensures Sized() && cache.Valid()
      ensures Reported(LayerStep(m, m.layers[layer], old(x), hist[layer]), r)
      ensures r.Ok? ==>
                var spec := LayerStep(m, m.layers[layer], old(x), hist[layer]).value;
                && x == spec.0
                && CacheHolds(cache, hist[layer := hist[layer] + [spec.1]])
    {
      hide Inputs, AttendHeads, Mixed, Fed, LayerHeld, IsRope, Finite, HeadDim, SlotCount;
      assert ValidLayer(config, m.layers[layer]);
      r := ComputeInputs(m, m.layers[layer], pos, rope);
      if r.Err? {
        return;
      }
      ghost var rows := hist[layer] + [Row(k, v)];
      r := StoreRow(layer, pos, cache, hist);
      if r.Err? {
        return;
      }
      assert LayerHeld(config, cache.k, cache.v, cache.headDim, layer, hist[layer := rows][layer]);
      r := AttendAll(m, layer, cache, rows, pos + 1);
      if r.Err? {
        return;
      }
      r := MixIn(m, m.layers[layer]);
      if r.Err? {
        return;
      }
      r := FeedForward(m, m.layers[layer]);
    }

    /** All layers in turn. */
    method RunLayers(m: Model, pos: nat, cache: KvCache, rope: RopeTables, ghost hist: History)
      returns (r: Result<(), ModelError>)
      requires Sized() && m.config == config == cache.config && ValidLayout(m)
      requires IsRope(rope, m) && pos < rope.positions && pos < maxContext
      requires CacheHolds(cache, hist) && ValidHistory(config, hist, pos)
      modifies this, cache
      ensures Sized() && cache.Valid()
      ensures Reported(Layers(m, hist, pos, old(x), |hist|), r)
      ensures r.Ok? ==>
                var spec := Layers(m, hist, pos, old(x), |hist|).value;
                x == spec.0 && CacheHolds(cache, spec.1)
    {
      hide RowsHeld, IsRope, LayerStep, ValidRows;
      ghost var x0, current := x, hist;
      for l := 0 to |m.layers|
        invariant Sized() && CacheHolds(cache, current)
        invariant Layers(m, hist, pos, x0, l) == Ok((x, current))
      {
        hide Layers;
        r, current := RunNext(m, pos, cache, rope, hist, x0, current, l);
        if r.Err? {
          FirstFailingLayer(m, hist, pos, x0, |hist|, l);
          return;
        }
      }
      r := Ok(());
    }

    /** The next layer, given that those before it have been run. */
    method RunNext(m: Model, pos: nat, cache: KvCache, rope: RopeTables, ghost hist: History, ghost x0: Vec,
                   ghost current: History, l: nat)
      returns (r: Result<(), ModelError>, ghost next: History)
      requires Sized() && m.config == config == cache.config && ValidLayout(m)
      requires IsRope(rope, m) && pos < rope.positions && pos < maxContext
      requires CacheHolds(cache, current) && ValidHistory(config, hist, pos) && l < |hist|
      requires Layers(m, hist, pos, x0, l) == Ok((x, current))
      modifies this, cache
      ensures Sized() && cache.Valid()
      ensures Reported(Layers(m, hist, pos, x0, l + 1), r)
      ensures r.Ok? ==> Layers(m, hist, pos, x0, l + 1) == Ok((x, next)) && CacheHolds(cache, next)
    {
      hide CacheHolds, IsRope, LayerStep, ValidRows;
      next := current;
      r := RunLayer(m, l, pos, cache, rope, current);
      if r.Ok? {
        next := Layers(m, hist, pos, x0, l + 1).value.1;
      }
    }

    /** What a forward step checks before it computes anything. */
    predicate Fits(m: Model, pos: nat, rope: RopeTables, cache: KvCache, logits: Vec) {
      && m.config == config == cache.config && |logits| == m.vocab
      && pos < rope.positions && pos < maxContext
      && rope.half * 2 == config.ropeDimensionCount && rope.pairing == config.pairing
    }

    /** One token at one position. The result is that of `Step`, whatever the workspace, the logits buffer and the
        cache beyond this position held before, and however large the workspace and the tables are; a workspace, cache,
        table or buffer of another shape is refused. It succeeds exactly if there are vectors as `PassRan` says, and
        these are among them. */
    method ForwardOne(m: Model, token: nat, pos: nat, rope: RopeTables, cache: KvCache, stale: Vec, ghost hist: History)
      returns (r: Result<(), ModelError>, logits: Vec)
      requires Sized() && ValidLayout(m) && cache.Valid()
      requires Fits(m, pos, rope, cache, stale) ==>
                 IsRope(rope, m) && CacheHolds(cache, hist) && ValidHistory(config, hist, pos)
      modifies this, cache
      ensures Sized() && cache.Valid() && |logits| == |stale|
      ensures !Fits(m, pos, rope, cache, stale) ==> r == Err(Shape)
      ensures Fits(m, pos, rope, cache, stale) ==>
                && Reported(Step(m, hist, pos, token), r)
                && (r.Ok? ==>
                      && logits == Step(m, hist, pos, token).value.0
                      && CacheHolds(cache, Step(m, hist, pos, token).value.1))
      ensures Fits(m, pos, rope, cache, stale) && r.Ok? ==>
                exists p ::
                  PassRan(m, hist, pos, token, p) && logits == p.logits && CacheHolds(cache, Grown(hist, p.layers))
      ensures Fits(m, pos, rope, cache, stale) && r.Err? ==> forall p :: !PassRan(m, hist, pos, token, p)
    {
      hide PassRan, Grown, Step, CacheHolds, IsRope, ValidHistory, ValidLayout, HeadDim, QLen, KvLen;
      if Fits(m, pos, rope, cache, stale) {
        StepDecided(m, hist, pos, token);
      }
      r, logits := ComputeToken(m, token, pos, rope, cache, stale, hist);
    }

    /** The checks, the embedding, the layers and the output in turn. */
    method ComputeToken(m: Model, token: nat, pos: nat, rope: RopeTables, cache: KvCache, stale: Vec,
                        ghost hist: History)
      returns (r: Result<(), ModelError>, logits: Vec)
      requires Sized() && ValidLayout(m) && cache.Valid()
      requires Fits(m, pos, rope, cache, stale) ==>
                 IsRope(rope, m) && CacheHolds(cache, hist) && ValidHistory(config, hist, pos)
      modifies this, cache
      ensures Sized() && cache.Valid() && |logits| == |stale|
      ensures !Fits(m, pos, rope, cache, stale) ==> r == Err(Shape)
      ensures Fits(m, pos, rope, cache, stale) ==>
                && Reported(Step(m, hist, pos, token), r)
                && (r.Ok? ==>
                      && logits == Step(m, hist, pos, token).value.0
                      && CacheHolds(cache, Step(m, hist, pos, token).value.1))
    {
      hide CacheHolds, IsRope, Embed, Layers, Output;
      logits := stale;
      if pos >= m.config.contextLength || |logits| != m.vocab || token >= m.vocab || cache.config != m.config {
        return Err(Shape), logits;
      }
      if rope.positions <= pos || rope.half * 2 != m.config.ropeDimensionCount || rope.pairing != m.config.pairing {
        return Err(Shape), logits;
      }
      if config != m.config || pos >= maxContext {
        return Err(Shape), logits;
      }
      r := LoadEmbedding(m, token);
      if r.Err? {
        return;
      }
      r := RunLayers(m, pos, cache, rope, hist);
      if r.Err? {
        return;
      }
      r, logits := Finish(m, logits);
    }

    method LoadEmbedding(m: Model, token: nat) returns (r: Result<(), ModelError>)
      requires Sized() && m.config == config
      modifies this`x
      ensures Sized()
      ensures Reported(Embed(m, token), r)
      ensures r.Ok? ==> Embed(m, token) == Ok(x)
    {
      r, x := Fill(x, (i: nat) => Checked(m.kernels.embed(token, i)));
    }

    method Finish(m: Model, stale: Vec) returns (r: Result<(), ModelError>, logits: Vec)
      requires Sized() && m.config == config && ValidLayout(m) && |stale| == m.vocab
      modifies this`h, this`q8a, this`q8k
      ensures Sized()
      ensures Wrote(Output(m, x), r, stale, logits)
    {
      hide Norm, Project;
      r, h := NormInto(m.kernels, x, m.outputNorm, h);
      if r.Err? {
        return r, stale;
      }
      r, logits, q8a, q8k := ProjectInto(m.kernels, m.output, h, q8a, q8k, stale);
    }
  }

  lemma HeldLayers(cache: KvCache, hist: History)
    requires CacheHolds(cache, hist)
    ensures |hist| == cache.config.blockCount
  {
  }

  lemma LayoutOfRows(m: Model, layer: nat)
    requires ValidLayout(m) && layer < m.config.blockCount
    ensures layer < |m.layers| && ValidConfig(m.config) && ValidLayer(m.config, m.layers[layer])
  {
  }

  lemma {:induction false} FirstFailingLayer(m: Model, hist: History, pos: nat, x: Vec, n: nat, l: nat)
    requires ValidLayout(m) && ValidHistory(m.config, hist, pos) && l < n <= |hist|
    requires Layers(m, hist, pos, x, l + 1).Err?
    ensures Layers(m, hist, pos, x, n) == Layers(m, hist, pos, x, l + 1)
    decreases n
  {
    hide LayerStep, ValidRows;
    if l + 1 < n {
      FirstFailingLayer(m, hist, pos, x, n - 1, l);
    }
  }

  /** The first n heads have been written, end to end. */
  ghost predicate HeadsDone(m: Model, q: Vec, rows: seq<Row>, attn: Vec, n: nat)
    requires ValidConfig(m.config) && ValidRows(m.config, rows) && rows != []
    requires |q| == QLen(m.config) && n <= m.config.headCount
  {
    && 0 <= n * HeadDim(m.config) <= |attn|
    && AttendHeads(m, q, rows, n).Ok?
    && AttendHeads(m, q, rows, n).value == attn[..n * HeadDim(m.config)]
  }

  lemma NoHeads(m: Model, q: Vec, rows: seq<Row>, attn: Vec)
    requires ValidConfig(m.config) && ValidRows(m.config, rows) && rows != [] && |q| == QLen(m.config)
    ensures HeadsDone(m, q, rows, attn, 0)
  {
    assert 0 * HeadDim(m.config) == 0;
  }

  lemma AllHeads(m: Model, q: Vec, rows: seq<Row>, attn: Vec)
    requires ValidConfig(m.config) && ValidRows(m.config, rows) && rows != [] && |q| == |attn| == QLen(m.config)
    requires HeadsDone(m, q, rows, attn, m.config.headCount)
    ensures AttendHeads(m, q, rows, m.config.headCount) == Ok(attn)
  {
    assert attn[..|attn|] == attn;
  }

  lemma {:induction false} FirstFailingHead(m: Model, q: Vec, rows: seq<Row>, attn: Vec, n: nat, head: nat)
    requires ValidConfig(m.config) && ValidRows(m.config, rows) && rows != []
    requires |q| == QLen(m.config) && head < n <= m.config.headCount
    requires AttendHeads(m, q, rows, head + 1).Err?
    ensures AttendHeads(m, q, rows, n) == AttendHeads(m, q, rows, head + 1)
    decreases n
  {
    hide AttendHead, Window, HeadOf;
    if head + 1 < n {
      FirstFailingHead(m, q, rows, attn, n - 1, head);
    }
  }

  /** What one head reads from the cache are the windows over the layer's rows. */
  lemma WindowsInCache(c: Config, k: Vec, v: Vec, hd: nat, layer: nat, rows: seq<Row>, h: nat)
    requires ValidConfig(c) && hd == HeadDim(c) && ValidRows(c, rows) && h < c.headCountKv && rows != []
    requires Holds(c, k, hd, layer, Keys(rows)) && Holds(c, v, hd, layer, Values(rows))
    ensures PrefixOf(c, k, hd, layer, h, |rows|) == Window(Keys(rows), c.headCountKv, hd, h)
    ensures PrefixOf(c, v, hd, layer, h, |rows|) == Window(Values(rows), c.headCountKv, hd, h)
  {
    PrefixIsWindow(c, k, hd, layer, Keys(rows), h, |rows|);
    PrefixIsWindow(c, v, hd, layer, Values(rows), h, |rows|);
    assert Keys(rows)[..|rows|] == Keys(rows) && Values(rows)[..|rows|] == Values(rows);
  }

  /** A method's outcome agrees with the outcome of the function it computes. */
  ghost predicate Reported<T>(spec: Result<T, ModelError>, r: Result<(), ModelError>) {
    (spec.Ok? ==> r == Ok(())) && (spec.Err? ==> r == Err(spec.error))
  }

  /** Storing the next row of one layer, seen from every layer. */
  lemma StoredRows(c: Config, k: Vec, v: Vec, hd: nat, hist: History, layer: nat, row: Row)
    requires RowsHeld(c, k, v, hd, hist) && layer < |hist| && |hist[layer]| < c.contextLength
    requires |row.k| == |row.v| == c.headCountKv * hd
    ensures RowsHeld(c, StoreHeads(c, k, hd, layer, |hist[layer]|, row.k, c.headCountKv),
                     StoreHeads(c, v, hd, layer, |hist[layer]|, row.v, c.headCountKv), hd,
                     hist[layer := hist[layer] + [row]])
  {
    hide Holds, StoreHeads, SlotCount;
    var after, pos := hist[layer := hist[layer] + [row]], |hist[layer]|;
    var k' := StoreHeads(c, k, hd, layer, pos, row.k, c.headCountKv);
    var v' := StoreHeads(c, v, hd, layer, pos, row.v, c.headCountKv);
    forall l | 0 <= l < |hist|
      ensures LayerHeld(c, k', v', hd, l, after[l])
    {
      assert LayerHeld(c, k, v, hd, l, hist[l]);
      StoreHolds(c, k, hd, layer, row.k, l, Keys(hist[l]));
      StoreHolds(c, v, hd, layer, row.v, l, Values(hist[l]));
      assert Keys(hist[layer] + [row]) == Keys(hist[layer]) + [row.k];
      assert Values(hist[layer] + [row]) == Values(hist[layer]) + [row.v];
    }
  }

  /** The scratch matters only if a matrix reads it; then it was filled from this input. */
  ghost predicate Prepared(k: Kernels, weight: Vec, ms: seq<Matrix>, x: Vec, h: Vec, q8a: Blocks) {
    var spec := Normed(k, weight, ms, x);
    spec.Ok? && h == spec.value.0 && (AnyQ8a(ms) ==> q8a == spec.value.1)
  }

  lemma UnbiasedScratchIrrelevant(k: Kernels, weight: Vec, ms: seq<Matrix>, i: nat, x: Vec, h: Vec, q8a: Blocks)
    requires i < |ms| && Prepared(k, weight, ms, x, h, q8a)
    ensures Normed(k, weight, ms, x).Ok?
    ensures ProjectShared(k, ms[i], h, q8a) ==
            ProjectShared(k, ms[i], Normed(k, weight, ms, x).value.0, Normed(k, weight, ms, x).value.1)
  {
  }

  /** A matrix that does not read Q8A activations does not care what is in the scratch. */
  lemma ScratchIrrelevant(k: Kernels, weight: Vec, ms: seq<Matrix>, i: nat, bias: Option<Vec>, x: Vec, h: Vec,
                          q8a: Blocks)
    requires i < |ms| && Prepared(k, weight, ms, x, h, q8a)
    ensures Normed(k, weight, ms, x).Ok?
    ensures Biased(k, ms[i], bias, h, q8a) ==
            Biased(k, ms[i], bias, Normed(k, weight, ms, x).value.0, Normed(k, weight, ms, x).value.1)
  {
    UnbiasedScratchIrrelevant(k, weight, ms, i, x, h, q8a);
  }
}
