/** What a forward pass computes, vector by vector, from the model's matrices and the kernels alone. */
module ForwardLaws {
  import opened Outcomes
  import opened Floats
  import opened Llama
  import opened KvCaches
  import opened InPlaceKernels
  import opened Forward
  import opened KernelLaws

  /** The vectors of one layer at one position. */
  datatype Trace = Trace(h: Vec, q0: Vec, key0: Vec, value: Vec, cos: Vec, sin: Vec, q: Vec, key: Vec, attn: Vec,
                         mixed: Vec, x1: Vec, h1: Vec, gate: Vec, up: Vec, ff: Vec, down: Vec, out: Vec)

  function RowOf(t: Trace): Row {
    Row(t.key, t.value)
  }

  // ----- attention half -----

  ghost predicate AreAngles(at: (nat, nat) -> F32, pos: nat, half: nat, v: Vec) {
    |v| == half && forall j :: 0 <= j < half ==> v[j] == at(pos, j)
  }

  /** Norm, three projections with their biases, and the rotation of query and key by the position's angles. */
  ghost predicate InputsRan(m: Model, layer: Layer, x: Vec, pos: nat, t: Trace)
    requires ValidConfig(m.config)
  {
    var (c, k, hd, half) := (m.config, m.kernels, HeadDim(m.config), m.config.ropeDimensionCount / 2);
    && IsNorm(k, x, layer.attentionNorm, t.h)
    && IsBiased(k, layer.wq, layer.qBias, t.h, t.q0)
    && IsBiased(k, layer.wk, layer.kBias, t.h, t.key0)
    && IsBiased(k, layer.wv, layer.vBias, t.h, t.value)
    && AreAngles(k.cosAt, pos, half, t.cos) && AreAngles(k.sinAt, pos, half, t.sin)
    && IsRotated(k, c.pairing, t.q0, c.headCount, hd, t.cos, t.sin, t.q)
    && IsRotated(k, c.pairing, t.key0, c.headCountKv, hd, t.cos, t.sin, t.key)
  }

  /** Attention over the earlier rows and this one, brought back and added to the stream. */
  ghost predicate MixRan(m: Model, layer: Layer, x: Vec, rows: seq<Row>, t: Trace)
    requires ValidConfig(m.config) && ValidRows(m.config, rows)
  {
    var c, k := m.config, m.kernels;
    && |t.q| == QLen(c) && |t.key| == |t.value| == KvLen(c) && AllFinite(t.key) && AllFinite(t.value)
    && IsAttention(m, t.q, rows + [RowOf(t)], t.attn)
    && IsProduct(k, layer.wo, t.attn, t.mixed)
    && IsSum(k, x, t.mixed, t.x1)
  }

  /** Norm, gate and up, their gated product brought back and added to the stream. */
  ghost predicate FeedRan(m: Model, layer: Layer, t: Trace) {
    var k := m.kernels;
    && IsNorm(k, t.x1, layer.ffnNorm, t.h1)
    && IsProduct(k, layer.wGate, t.h1, t.gate)
    && IsProduct(k, layer.wUp, t.h1, t.up)
    && IsGated(k, t.gate, t.up, t.ff)
    && IsProduct(k, layer.wDown, t.ff, t.down)
    && IsSum(k, t.x1, t.down, t.out)
  }

  ghost predicate LayerRan(m: Model, layer: Layer, x: Vec, rows: seq<Row>, t: Trace)
    requires ValidConfig(m.config) && ValidRows(m.config, rows)
  {
    InputsRan(m, layer, x, |rows|, t) && MixRan(m, layer, x, rows, t) && FeedRan(m, layer, t)
  }

  // ----- and back -----

  /** The activations some matrices share are there if one of them needs them. */
  lemma NormedIff(k: Kernels, weight: Vec, ms: seq<Matrix>, x: Vec, h: Vec)
    ensures Normed(k, weight, ms, x).Ok? && Normed(k, weight, ms, x).value.0 == h <==>
            && IsNorm(k, x, weight, h)
            && forall i :: 0 <= i < |ms| && ms[i].kind == NeedsQ8a ==> k.quantizeQ8a(h).Ok?
    ensures Normed(k, weight, ms, x).Ok? ==>
              forall i :: 0 <= i < |ms| && ms[i].kind == NeedsQ8a ==>
                k.quantizeQ8a(Normed(k, weight, ms, x).value.0) == Ok(Normed(k, weight, ms, x).value.1)
  {
    hide Norm, IsNorm;
    NormIff(k, x, weight, h);
    var n := Norm(k, x, weight);
    if n.Ok? {
      NormIff(k, x, weight, n.value);
    }
  }

  lemma ProductIsQuantised(k: Kernels, m: Matrix, x: Vec, y: Vec)
    requires IsProduct(k, m, x, y) && m.kind == NeedsQ8a
    ensures k.quantizeQ8a(x).Ok?
  {
  }

  lemma BiasedIsQuantised(k: Kernels, m: Matrix, bias: Option<Vec>, x: Vec, y: Vec)
    requires IsBiased(k, m, bias, x, y) && m.kind == NeedsQ8a
    ensures k.quantizeQ8a(x).Ok?
  {
    hide IsProduct;
    var z :| IsProduct(k, m, x, z);
    ProductIsQuantised(k, m, x, z);
  }

  lemma ProjectedIff(m: Model, layer: Layer, x: Vec, q: Vec, key: Vec, value: Vec)
    ensures Projected(m, layer, x) == Ok((q, key, value)) <==>
            exists h ::
              && IsNorm(m.kernels, x, layer.attentionNorm, h)
              && IsBiased(m.kernels, layer.wq, layer.qBias, h, q)
              && IsBiased(m.kernels, layer.wk, layer.kBias, h, key)
              && IsBiased(m.kernels, layer.wv, layer.vBias, h, value)
  {
    hide IsNorm, IsBiased, Normed, Biased;
    var k, ms := m.kernels, [layer.wq, layer.wk, layer.wv];
    var n := Normed(k, layer.attentionNorm, ms, x);
    if n.Ok? {
      var (h, q8a) := n.value;
      NormedIff(k, layer.attentionNorm, ms, x, h);
      assert ms[0] == layer.wq && ms[1] == layer.wk && ms[2] == layer.wv;
      BiasedIff(k, layer.wq, layer.qBias, h, q8a, q);
      BiasedIff(k, layer.wk, layer.kBias, h, q8a, key);
      BiasedIff(k, layer.wv, layer.vBias, h, q8a, value);
    }
    forall h | && IsNorm(k, x, layer.attentionNorm, h)
               && IsBiased(k, layer.wq, layer.qBias, h, q)
               && IsBiased(k, layer.wk, layer.kBias, h, key)
               && IsBiased(k, layer.wv, layer.vBias, h, value)
      ensures n.Ok? && n.value.0 == h
    {
      NormedIff(k, layer.attentionNorm, ms, x, h);
      if layer.wq.kind == NeedsQ8a {
        BiasedIsQuantised(k, layer.wq, layer.qBias, h, q);
      }
      if layer.wk.kind == NeedsQ8a {
        BiasedIsQuantised(k, layer.wk, layer.kBias, h, key);
      }
      if layer.wv.kind == NeedsQ8a {
        BiasedIsQuantised(k, layer.wv, layer.vBias, h, value);
      }
    }
  }

  ghost function AnglesOf(m: Model, pos: nat): (r: (Vec, Vec))
    ensures AreAngles(m.kernels.cosAt, pos, m.config.ropeDimensionCount / 2, r.0)
    ensures AreAngles(m.kernels.sinAt, pos, m.config.ropeDimensionCount / 2, r.1)
  {
    var half := m.config.ropeDimensionCount / 2;
    (Angles(m.kernels.cosAt, pos, half), Angles(m.kernels.sinAt, pos, half))
  }

  lemma SameAngles(at: (nat, nat) -> F32, pos: nat, half: nat, v: Vec)
    requires AreAngles(at, pos, half, v)
    ensures v == Angles(at, pos, half)
  {
  }

  lemma InputsToTrace(m: Model, layer: Layer, x: Vec, pos: nat) returns (t: Trace)
    requires ValidConfig(m.config) && ValidLayer(m.config, layer) && Inputs(m, layer, pos, x).Ok?
    ensures InputsRan(m, layer, x, pos, t) && Inputs(m, layer, pos, x) == Ok((t.q, RowOf(t)))
  {
    hide Projected, Rope, IsNorm, IsBiased, IsRotated, HeadDim;
    var (c, k) := (m.config, m.kernels);
    var (q0, key0, value) := Projected(m, layer, x).value;
    var (q, row) := Inputs(m, layer, pos, x).value;
    var (cos, sin) := AnglesOf(m, pos);
    ProjectedIff(m, layer, x, q0, key0, value);
    var h :| && IsNorm(k, x, layer.attentionNorm, h)
             && IsBiased(k, layer.wq, layer.qBias, h, q0)
             && IsBiased(k, layer.wk, layer.kBias, h, key0)
             && IsBiased(k, layer.wv, layer.vBias, h, value);
    RopeIff(k, c.pairing, q0, c.headCount, HeadDim(c), cos, sin, q);
    RopeIff(k, c.pairing, key0, c.headCountKv, HeadDim(c), cos, sin, row.k);
    t := Trace(h, q0, key0, value, cos, sin, q, row.k, [], [], [], [], [], [], [], [], []);
  }

  lemma TraceToInputs(m: Model, layer: Layer, x: Vec, pos: nat, t: Trace)
    requires ValidConfig(m.config) && ValidLayer(m.config, layer) && InputsRan(m, layer, x, pos, t)
    ensures Inputs(m, layer, pos, x) == Ok((t.q, RowOf(t)))
  {
    hide Projected, Rope, IsNorm, IsBiased, IsRotated, HeadDim, Angles;
    var (c, k, half) := (m.config, m.kernels, m.config.ropeDimensionCount / 2);
    ProjectedIff(m, layer, x, t.q0, t.key0, t.value);
    SameAngles(k.cosAt, pos, half, t.cos);
    SameAngles(k.sinAt, pos, half, t.sin);
    RopeIff(k, c.pairing, t.q0, c.headCount, HeadDim(c), t.cos, t.sin, t.q);
    RopeIff(k, c.pairing, t.key0, c.headCountKv, HeadDim(c), t.cos, t.sin, t.key);
  }

  lemma MixedIff(m: Model, layer: Layer, x: Vec, attn: Vec, y: Vec)
    ensures Mixed(m, layer, x, attn) == Ok(y) <==>
            exists t :: IsProduct(m.kernels, layer.wo, attn, t) && IsSum(m.kernels, x, t, y)
  {
    hide Project, Add, IsProduct, IsSum;
    forall t
      ensures Project(m.kernels, layer.wo, attn) == Ok(t) <==> IsProduct(m.kernels, layer.wo, attn, t)
      ensures Add(m.kernels, x, t) == Ok(y) <==> IsSum(m.kernels, x, t, y)
    {
      ProjectIff(m.kernels, layer.wo, attn, t);
      AddIff(m.kernels, x, t, y);
    }
    var p := Project(m.kernels, layer.wo, attn);
    assert p.Ok? ==> p == Ok(p.value);
  }

  lemma GatedIff(m: Model, layer: Layer, x: Vec, gate: Vec, up: Vec)
    ensures Gated(m, layer, x) == Ok((gate, up)) <==>
            exists h ::
              && IsNorm(m.kernels, x, layer.ffnNorm, h)
              && IsProduct(m.kernels, layer.wGate, h, gate)
              && IsProduct(m.kernels, layer.wUp, h, up)
  {
    hide IsNorm, IsProduct, Normed, ProjectShared;
    var k, ms := m.kernels, [layer.wGate, layer.wUp];
    var n := Normed(k, layer.ffnNorm, ms, x);
    if n.Ok? {
      var (h, q8a) := n.value;
      NormedIff(k, layer.ffnNorm, ms, x, h);
      assert ms[0] == layer.wGate && ms[1] == layer.wUp;
      ProjectSharedIff(k, layer.wGate, h, q8a, gate);
      ProjectSharedIff(k, layer.wUp, h, q8a, up);
    }
    forall h | && IsNorm(k, x, layer.ffnNorm, h)
               && IsProduct(k, layer.wGate, h, gate)
               && IsProduct(k, layer.wUp, h, up)
      ensures n.Ok? && n.value.0 == h
    {
      NormedIff(k, layer.ffnNorm, ms, x, h);
      if layer.wGate.kind == NeedsQ8a {
        ProductIsQuantised(k, layer.wGate, h, gate);
      }
      if layer.wUp.kind == NeedsQ8a {
        ProductIsQuantised(k, layer.wUp, h, up);
      }
    }
  }

  lemma MergedIff(m: Model, layer: Layer, x: Vec, gate: Vec, up: Vec, y: Vec)
    ensures Merged(m, layer, x, gate, up) == Ok(y) <==>
            exists ff, t ::
              && IsGated(m.kernels, gate, up, ff)
              && IsProduct(m.kernels, layer.wDown, ff, t)
              && IsSum(m.kernels, x, t, y)
  {
    hide Swiglu, Project, Add, IsGated, IsProduct, IsSum;
    var k := m.kernels;
    forall ff
      ensures Swiglu(k, gate, up) == Ok(ff) <==> IsGated(k, gate, up, ff)
    {
      SwigluIff(k, gate, up, ff);
    }
    forall ff, t
      ensures Project(k, layer.wDown, ff) == Ok(t) <==> IsProduct(k, layer.wDown, ff, t)
    {
      ProjectIff(k, layer.wDown, ff, t);
    }
    forall t
      ensures Add(k, x, t) == Ok(y) <==> IsSum(k, x, t, y)
    {
      AddIff(k, x, t, y);
    }
    var s := Swiglu(k, gate, up);
    assert s.Ok? ==> s == Ok(s.value);
    if s.Ok? {
      var p := Project(k, layer.wDown, s.value);
      assert p.Ok? ==> p == Ok(p.value);
    }
  }

  /** A layer succeeds exactly if there are such vectors, and then its results are among them. */
  lemma LayerToTrace(m: Model, layer: Layer, x: Vec, rows: seq<Row>) returns (t: Trace)
    requires ValidConfig(m.config) && ValidLayer(m.config, layer) && ValidRows(m.config, rows)
    requires LayerStep(m, layer, x, rows).Ok?
    ensures LayerRan(m, layer, x, rows, t) && LayerStep(m, layer, x, rows) == Ok((t.out, RowOf(t)))
  {
    hide Inputs, AttendHeads, Mixed, Gated, Merged, IsNorm, IsProduct, IsSum, IsGated, IsAttention, InputsRan, HeadDim;
    var k := m.kernels;
    var a := InputsToTrace(m, layer, x, |rows|);
    var row := RowOf(a);
    RowsGrow(m.config, rows, row);
    var attn := AttendHeads(m, a.q, rows + [row], m.config.headCount).value;
    AttentionIff(m, a.q, rows + [row], attn);
    var x1 := Mixed(m, layer, x, attn).value;
    MixedIff(m, layer, x, attn, x1);
    var mixed :| IsProduct(k, layer.wo, attn, mixed) && IsSum(k, x, mixed, x1);
    var (gate, up) := Gated(m, layer, x1).value;
    GatedIff(m, layer, x1, gate, up);
    var h1 :|
      IsNorm(k, x1, layer.ffnNorm, h1) && IsProduct(k, layer.wGate, h1, gate) && IsProduct(k, layer.wUp, h1, up);
    var out := Merged(m, layer, x1, gate, up).value;
    MergedIff(m, layer, x1, gate, up, out);
    var ff, down :| IsGated(k, gate, up, ff) && IsProduct(k, layer.wDown, ff, down) && IsSum(k, x1, down, out);
    t := a.(attn := attn, mixed := mixed, x1 := x1, h1 := h1, gate := gate, up := up, ff := ff, down := down,
            out := out);
    SameInputs(m, layer, x, |rows|, a, t);
  }

  /** The inputs do not depend on what comes after them. */
  lemma SameInputs(m: Model, layer: Layer, x: Vec, pos: nat, a: Trace, t: Trace)
    requires ValidConfig(m.config) && InputsRan(m, layer, x, pos, a)
    requires a.h == t.h && a.q0 == t.q0 && a.key0 == t.key0 && a.value == t.value && a.cos == t.cos && a.sin == t.sin
    requires a.q == t.q && a.key == t.key
    ensures InputsRan(m, layer, x, pos, t)
  {
  }

  lemma TraceToLayer(m: Model, layer: Layer, x: Vec, rows: seq<Row>, t: Trace)
    requires ValidConfig(m.config) && ValidLayer(m.config, layer) && ValidRows(m.config, rows)
    requires LayerRan(m, layer, x, rows, t)
    ensures LayerStep(m, layer, x, rows) == Ok((t.out, RowOf(t)))
  {
    hide Inputs, AttendHeads, Mixed, Gated, Merged, IsNorm, IsProduct, IsSum, IsGated, IsAttention, InputsRan, HeadDim;
    TraceToInputs(m, layer, x, |rows|, t);
    RowsGrow(m.config, rows, RowOf(t));
    AttentionIff(m, t.q, rows + [RowOf(t)], t.attn);
    MixedIff(m, layer, x, t.attn, t.x1);
    GatedIff(m, layer, t.x1, t.gate, t.up);
    MergedIff(m, layer, t.x1, t.gate, t.up, t.out);
  }

  // ----- one token -----

  /** The vectors of one position: its embedding, its layers, and what the output is read from. */
  datatype Pass = Pass(embedded: Vec, layers: seq<Trace>, normed: Vec, logits: Vec)

  /** What goes into a layer: the embedding, or what came out of the layer before. */
  function StreamAt(embedded: Vec, layers: seq<Trace>, l: nat): Vec
    requires l <= |layers|
  {
    if l == 0 then embedded else layers[l - 1].out
  }

  ghost predicate LayersRan(m: Model, hist: History, pos: nat, embedded: Vec, layers: seq<Trace>)
    requires ValidLayout(m) && ValidHistory(m.config, hist, pos)
  {
    && |layers| <= |hist|
    && forall l :: 0 <= l < |layers| ==> LayerRan(m, m.layers[l], StreamAt(embedded, layers, l), hist[l], layers[l])
  }

  ghost predicate PassRan(m: Model, hist: History, pos: nat, token: nat, p: Pass)
    requires ValidLayout(m) && ValidHistory(m.config, hist, pos)
  {
    && pos < m.config.contextLength && token < m.vocab
    && |p.embedded| == m.config.embeddingLength && AllFinite(p.embedded)
    && (forall i :: 0 <= i < |p.embedded| ==> p.embedded[i] == m.kernels.embed(token, i))
    && |p.layers| == |m.layers| && LayersRan(m, hist, pos, p.embedded, p.layers)
    && IsNorm(m.kernels, StreamAt(p.embedded, p.layers, |p.layers|), m.outputNorm, p.normed)
    && IsProduct(m.kernels, m.output, p.normed, p.logits)
  }

  /** Each layer's rows with the one it has just computed. */
  function Grown(hist: History, layers: seq<Trace>): (r: History)
    ensures |r| == |hist|
    ensures forall l :: 0 <= l < |hist| ==> r[l] == if l < |layers| then hist[l] + [RowOf(layers[l])] else hist[l]
  {
    seq(|hist|, l requires 0 <= l < |hist| => if l < |layers| then hist[l] + [RowOf(layers[l])] else hist[l])
  }

  lemma EmbedIff(m: Model, token: nat, x: Vec)
    ensures Embed(m, token) == Ok(x) <==>
            && |x| == m.config.embeddingLength && AllFinite(x)
            && forall i :: 0 <= i < |x| ==> x[i] == m.kernels.embed(token, i)
  {
    hide IsFinite;
    BuildCheckedIff(m.config.embeddingLength, (i: nat) => Checked(m.kernels.embed(token, i)),
                    (i: nat) => m.kernels.embed(token, i), x);
  }

  lemma OutputIff(m: Model, x: Vec, logits: Vec)
    ensures Output(m, x) == Ok(logits) <==>
            exists h :: IsNorm(m.kernels, x, m.outputNorm, h) && IsProduct(m.kernels, m.output, h, logits)
  {
    hide Norm, Project, IsNorm, IsProduct;
    forall h
      ensures Norm(m.kernels, x, m.outputNorm) == Ok(h) <==> IsNorm(m.kernels, x, m.outputNorm, h)
      ensures Project(m.kernels, m.output, h) == Ok(logits) <==> IsProduct(m.kernels, m.output, h, logits)
    {
      NormIff(m.kernels, x, m.outputNorm, h);
      ProjectIff(m.kernels, m.output, h, logits);
    }
    var n := Norm(m.kernels, x, m.outputNorm);
    assert n.Ok? ==> n == Ok(n.value);
  }

  lemma LayersTurn(m: Model, hist: History, pos: nat, x: Vec, n: nat)
    requires ValidLayout(m) && ValidHistory(m.config, hist, pos) && n < |hist|
    ensures var before, after := Layers(m, hist, pos, x, n), Layers(m, hist, pos, x, n + 1);
            if before.Err? then after == Err(before.error)
            else
              var (y, h) := before.value;
              && h[n] == hist[n] && ValidRows(m.config, hist[n]) && ValidLayer(m.config, m.layers[n])
              && var step := LayerStep(m, m.layers[n], y, hist[n]);
                 if step.Err? then after == Err(step.error)
                 else after == Ok((step.value.0, h[n := hist[n] + [step.value.1]]))
  {
    hide LayerStep, ValidRows;
  }

  lemma {:induction false} LayersToTraces(m: Model, hist: History, pos: nat, x: Vec, n: nat) returns (ts: seq<Trace>)
    requires ValidLayout(m) && ValidHistory(m.config, hist, pos) && n <= |hist| && Layers(m, hist, pos, x, n).Ok?
    ensures |ts| == n && LayersRan(m, hist, pos, x, ts)
    ensures Layers(m, hist, pos, x, n) == Ok((StreamAt(x, ts, n), Grown(hist, ts)))
    decreases n
  {
    hide LayerStep, LayerRan, ValidRows, ValidLayout, ValidHistory;
    if n == 0 {
      ts := [];
      assert Grown(hist, []) == hist;
    } else {
      LayersTurn(m, hist, pos, x, n - 1);
      hide Layers;
      var front := LayersToTraces(m, hist, pos, x, n - 1);
      LayoutOfLayer(m, hist, pos, n - 1);
      var t := LayerToTrace(m, m.layers[n - 1], StreamAt(x, front, n - 1), hist[n - 1]);
      ts := front + [t];
      GrownTurn(hist, front, t);
      RanTurn(m, hist, pos, x, front, t);
    }
  }

  lemma LayoutOfLayer(m: Model, hist: History, pos: nat, l: nat)
    requires ValidLayout(m) && ValidHistory(m.config, hist, pos) && l < |hist|
    ensures l < |m.layers| && ValidConfig(m.config) && ValidLayer(m.config, m.layers[l]) && ValidRows(m.config, hist[l])
  {
  }

  lemma GrownTurn(hist: History, front: seq<Trace>, t: Trace)
    requires |front| < |hist|
    ensures Grown(hist, front + [t]) == Grown(hist, front)[|front| := hist[|front|] + [RowOf(t)]]
  {
  }

  lemma RanTurn(m: Model, hist: History, pos: nat, x: Vec, front: seq<Trace>, t: Trace)
    requires ValidLayout(m) && ValidHistory(m.config, hist, pos) && |front| < |hist|
    ensures LayersRan(m, hist, pos, x, front + [t]) <==>
            && LayersRan(m, hist, pos, x, front)
            && LayerRan(m, m.layers[|front|], StreamAt(x, front, |front|), hist[|front|], t)
  {
    hide LayerRan, ValidLayout, ValidHistory, ValidRows;
    LayoutOfLayer(m, hist, pos, |front|);
    var ts := front + [t];
    assert StreamAt(x, ts, |front|) == StreamAt(x, front, |front|) && ts[|front|] == t;
    forall l | 0 <= l < |front|
      ensures StreamAt(x, ts, l) == StreamAt(x, front, l) && ts[l] == front[l]
    {
      LayoutOfLayer(m, hist, pos, l);
    }
  }

  lemma {:induction false} TracesToLayers(m: Model, hist: History, pos: nat, x: Vec, ts: seq<Trace>)
    requires ValidLayout(m) && ValidHistory(m.config, hist, pos) && LayersRan(m, hist, pos, x, ts)
    ensures Layers(m, hist, pos, x, |ts|) == Ok((StreamAt(x, ts, |ts|), Grown(hist, ts)))
    decreases |ts|
  {
    hide LayerStep, LayerRan, ValidRows, ValidLayout, ValidHistory;
    if ts == [] {
      assert Grown(hist, []) == hist;
    } else {
      var n := |ts| - 1;
      assert ts == ts[..n] + [ts[n]];
      RanTurn(m, hist, pos, x, ts[..n], ts[n]);
      LayersTurn(m, hist, pos, x, n);
      hide Layers;
      TracesToLayers(m, hist, pos, x, ts[..n]);
      LayoutOfLayer(m, hist, pos, n);
      TraceToLayer(m, m.layers[n], StreamAt(x, ts[..n], n), hist[n], ts[n]);
      GrownTurn(hist, ts[..n], ts[n]);
    }
  }

  /** One token succeeds exactly if there is such a pass, and then its logits and rows are the pass's. */
  lemma StepToPass(m: Model, hist: History, pos: nat, token: nat) returns (p: Pass)
    requires ValidLayout(m) && ValidHistory(m.config, hist, pos) && Step(m, hist, pos, token).Ok?
    ensures PassRan(m, hist, pos, token, p)
    ensures Step(m, hist, pos, token) == Ok((p.logits, Grown(hist, p.layers)))
  {
    hide Embed, Layers, Output, LayersRan, IsNorm, IsProduct, AllFinite;
    var x := Embed(m, token).value;
    EmbedIff(m, token, x);
    var ts := LayersToTraces(m, hist, pos, x, |hist|);
    var y := StreamAt(x, ts, |ts|);
    var logits := Output(m, y).value;
    OutputIff(m, y, logits);
    var h :| IsNorm(m.kernels, y, m.outputNorm, h) && IsProduct(m.kernels, m.output, h, logits);
    p := Pass(x, ts, h, logits);
  }

  lemma PassToStep(m: Model, hist: History, pos: nat, token: nat, p: Pass)
    requires ValidLayout(m) && ValidHistory(m.config, hist, pos) && PassRan(m, hist, pos, token, p)
    ensures Step(m, hist, pos, token) == Ok((p.logits, Grown(hist, p.layers)))
  {
    hide Embed, Layers, Output, LayersRan, IsNorm, IsProduct, AllFinite;
    EmbedIff(m, token, p.embedded);
    TracesToLayers(m, hist, pos, p.embedded, p.layers);
    OutputIff(m, StreamAt(p.embedded, p.layers, |p.layers|), p.logits);
  }

  /** The same, of success and of failure. */
  lemma StepDecided(m: Model, hist: History, pos: nat, token: nat)
    requires ValidLayout(m) && ValidHistory(m.config, hist, pos)
    ensures var step := Step(m, hist, pos, token);
            if step.Ok? then
              exists p :: PassRan(m, hist, pos, token, p) && step.value == (p.logits, Grown(hist, p.layers))
            else forall p :: !PassRan(m, hist, pos, token, p)
  {
    hide Step, PassRan, ValidHistory, ValidLayout, Grown;
    if Step(m, hist, pos, token).Ok? {
      var p := StepToPass(m, hist, pos, token);
    } else {
      forall p | PassRan(m, hist, pos, token, p)
        ensures false
      {
        PassToStep(m, hist, pos, token, p);
      }
    }
  }

  lemma LayerDecided(m: Model, layer: Layer, x: Vec, rows: seq<Row>)
    requires ValidConfig(m.config) && ValidLayer(m.config, layer) && ValidRows(m.config, rows)
    ensures var step := LayerStep(m, layer, x, rows);
            if step.Ok? then exists t :: LayerRan(m, layer, x, rows, t) && step.value == (t.out, RowOf(t))
            else forall t :: !LayerRan(m, layer, x, rows, t)
  {
    hide LayerStep, LayerRan, ValidLayer, ValidConfig, ValidRows;
    if LayerStep(m, layer, x, rows).Ok? {
      var t := LayerToTrace(m, layer, x, rows);
    } else {
      forall t | LayerRan(m, layer, x, rows, t)
        ensures false
      {
        TraceToLayer(m, layer, x, rows, t);
      }
    }
  }

  // ----- a list of tokens -----

  /** The rows some passes leave behind, layer by layer. */
  function RowsLeft(c: Config, passes: seq<Pass>): (r: History)
    ensures |r| == c.blockCount
    ensures forall l :: 0 <= l < c.blockCount ==> |r[l]| == |passes|
  {
    seq(c.blockCount, l requires 0 <= l < c.blockCount =>
      seq<Row>(|passes|, p requires 0 <= p < |passes| =>
        if l < |passes[p].layers| then RowOf(passes[p].layers[l]) else Row([], [])))
  }

  /** Every token's pass ran over the rows of those before it. */
  ghost predicate PassesRan(m: Model, tokens: seq<nat>, passes: seq<Pass>)
    requires ValidLayout(m)
  {
    && |passes| == |tokens|
    && forall i :: 0 <= i < |tokens| ==>
         && ValidHistory(m.config, RowsLeft(m.config, passes[..i]), i)
         && PassRan(m, RowsLeft(m.config, passes[..i]), i, tokens[i], passes[i])
  }

  lemma LeftGrows(c: Config, passes: seq<Pass>, p: Pass)
    requires |p.layers| == c.blockCount
    ensures RowsLeft(c, passes + [p]) == Grown(RowsLeft(c, passes), p.layers)
  {
    var (a, b) := (RowsLeft(c, passes + [p]), Grown(RowsLeft(c, passes), p.layers));
    forall l | 0 <= l < c.blockCount
      ensures a[l] == b[l]
    {
      assert b[l] == RowsLeft(c, passes)[l] + [RowOf(p.layers[l])];
    }
  }

  lemma NothingLeft(c: Config)
    requires ValidConfig(c)
    ensures RowsLeft(c, []) == EmptyHistory(c)
  {
  }

  lemma {:induction false} HistoryToPasses(m: Model, tokens: seq<nat>) returns (passes: seq<Pass>)
    requires ValidLayout(m) && HistoryOf(m, tokens).Ok?
    ensures PassesRan(m, tokens, passes)
    ensures HistoryOf(m, tokens).value.1 == RowsLeft(m.config, passes)
    ensures tokens != [] ==> HistoryOf(m, tokens).value.0 == passes[|tokens| - 1].logits
    decreases |tokens|
  {
    hide Step, PassRan, ValidHistory, RowsLeft;
    if tokens == [] {
      passes := [];
      LayoutMeansConfig(m);
      NothingLeft(m.config);
    } else {
      var n := |tokens| - 1;
      var front := HistoryToPasses(m, tokens[..n]);
      var hist := RowsLeft(m.config, front);
      var p := StepToPass(m, hist, n, tokens[n]);
      passes := front + [p];
      PassLayers(m, hist, n, tokens[n], p);
      LeftGrows(m.config, front, p);
      forall i | 0 <= i < |tokens|
        ensures ValidHistory(m.config, RowsLeft(m.config, passes[..i]), i)
        ensures PassRan(m, RowsLeft(m.config, passes[..i]), i, tokens[i], passes[i])
      {
        assert passes[..i] == if i < n then front[..i] else front;
        assert i < n ==> tokens[..n][i] == tokens[i];
      }
    }
  }

  lemma LayoutMeansConfig(m: Model)
    requires ValidLayout(m)
    ensures ValidConfig(m.config)
  {
  }

  lemma PassLayers(m: Model, hist: History, pos: nat, token: nat, p: Pass)
    requires ValidLayout(m) && ValidHistory(m.config, hist, pos) && PassRan(m, hist, pos, token, p)
    ensures |p.layers| == m.config.blockCount
  {
  }

  lemma FrontRan(m: Model, tokens: seq<nat>, passes: seq<Pass>)
    requires ValidLayout(m) && PassesRan(m, tokens, passes) && tokens != []
    ensures |passes| == |tokens|
    ensures var n := |tokens| - 1;
            && PassesRan(m, tokens[..n], passes[..n])
            && ValidHistory(m.config, RowsLeft(m.config, passes[..n]), n)
            && PassRan(m, RowsLeft(m.config, passes[..n]), n, tokens[n], passes[n])
  {
    hide PassRan, ValidHistory, RowsLeft, ValidLayout;
    var n := |tokens| - 1;
    LayoutMeansConfig(m);
    forall i | 0 <= i < n
      ensures ValidHistory(m.config, RowsLeft(m.config, passes[..n][..i]), i)
      ensures PassRan(m, RowsLeft(m.config, passes[..n][..i]), i, tokens[..n][i], passes[..n][i])
    {
      assert passes[..n][..i] == passes[..i];
    }
  }

  lemma {:induction false} PassesToHistory(m: Model, tokens: seq<nat>, passes: seq<Pass>)
    requires ValidLayout(m) && PassesRan(m, tokens, passes)
    ensures |passes| == |tokens|
    ensures HistoryOf(m, tokens).Ok? && HistoryOf(m, tokens).value.1 == RowsLeft(m.config, passes)
    ensures tokens != [] ==> HistoryOf(m, tokens).value.0 == passes[|tokens| - 1].logits
    decreases |tokens|
  {
    hide PassesRan, HistoryOf, RowsLeft, ValidLayout;
    OneForEach(m, tokens, passes);
    if tokens == [] {
      NoHistory(m);
    } else {
      var n := |tokens| - 1;
      FrontRan(m, tokens, passes);
      PassesToHistory(m, tokens[..n], passes[..n]);
      LastPass(m, tokens, passes);
    }
  }

  lemma NoHistory(m: Model)
    requires ValidLayout(m)
    ensures HistoryOf(m, []).Ok? && HistoryOf(m, []).value.1 == RowsLeft(m.config, [])
  {
    NothingLeft(m.config);
  }

  lemma LastPass(m: Model, tokens: seq<nat>, passes: seq<Pass>)
    requires ValidLayout(m) && |passes| == |tokens| > 0
    requires var n := |tokens| - 1;
             && HistoryOf(m, tokens[..n]).Ok? && HistoryOf(m, tokens[..n]).value.1 == RowsLeft(m.config, passes[..n])
             && ValidHistory(m.config, RowsLeft(m.config, passes[..n]), n)
             && PassRan(m, RowsLeft(m.config, passes[..n]), n, tokens[n], passes[n])
    ensures HistoryOf(m, tokens).Ok? && HistoryOf(m, tokens).value.1 == RowsLeft(m.config, passes)
    ensures HistoryOf(m, tokens).value.0 == passes[|tokens| - 1].logits
  {
    hide HistoryOf, RowsLeft, ValidLayout, Step, PassRan, ValidHistory, Grown;
    var n := |tokens| - 1;
    var hist := RowsLeft(m.config, passes[..n]);
    PassToStep(m, hist, n, tokens[n], passes[n]);
    PassLayers(m, hist, n, tokens[n], passes[n]);
    LeftGrows(m.config, passes[..n], passes[n]);
    OneMoreToken(m, tokens[..n], tokens[n]);
    assert tokens[..n] + [tokens[n]] == tokens && passes[..n] + [passes[n]] == passes;
  }

  /** A list of tokens has logits exactly if there are such passes, and they are those of the last. */
  lemma LogitsIff(m: Model, tokens: seq<nat>, logits: Vec)
    requires ValidLayout(m) && tokens != []
    ensures LogitsOf(m, tokens) == Ok(logits) <==>
            exists passes: seq<Pass> :: PassesRan(m, tokens, passes) && passes[|tokens| - 1].logits == logits
  {
    hide HistoryOf, PassesRan;
    if LogitsOf(m, tokens) == Ok(logits) {
      var passes := HistoryToPasses(m, tokens);
    }
    forall passes: seq<Pass> | PassesRan(m, tokens, passes)
      ensures |passes| == |tokens| && LogitsOf(m, tokens) == Ok(passes[|tokens| - 1].logits)
    {
      PassesToHistory(m, tokens, passes);
      OneForEach(m, tokens, passes);
    }
  }

  lemma OneForEach(m: Model, tokens: seq<nat>, passes: seq<Pass>)
    requires ValidLayout(m) && PassesRan(m, tokens, passes)
    ensures |passes| == |tokens|
  {
  }
}
