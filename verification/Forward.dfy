/** One forward step as a function of the tokens so far. */
module Forward {
  import opened Bits
  import opened Outcomes
  import opened Floats
  import opened Llama
  import opened KvCaches
  import opened InPlaceKernels

  /** The rows each layer has computed, one per position. */
  type History = seq<seq<Row>>

  predicate ValidHistory(c: Config, hist: History, pos: nat)
    requires ValidConfig(c)
  {
    && |hist| == c.blockCount
    && forall l :: 0 <= l < |hist| ==> |hist[l]| == pos && ValidRows(c, hist[l])
  }

  predicate ValidRows(c: Config, rows: seq<Row>)
    requires ValidConfig(c)
  {
    forall p :: 0 <= p < |rows| ==> |rows[p].k| == KvLen(c) && |rows[p].v| == KvLen(c)
  }

  function EmptyHistory(c: Config): (h: History)
    requires ValidConfig(c)
    ensures ValidHistory(c, h, 0)
  {
    seq(c.blockCount, _ => [])
  }

  // ----- attention -----

  /** The key/value head that a query head shares. */
  function KvHead(c: Config, head: nat): (h: nat)
    requires ValidConfig(c) && head < c.headCount
    ensures h < c.headCountKv
  {
    KvHeadFits(c, head);
    head / (c.headCount / c.headCountKv)
  }

  lemma KvHeadFits(c: Config, head: nat)
    requires ValidConfig(c) && head < c.headCount
    ensures c.headCount / c.headCountKv > 0
    ensures head / (c.headCount / c.headCountKv) < c.headCountKv
  {
    var group := c.headCount / c.headCountKv;
    assert c.headCount == c.headCountKv * group + c.headCount % c.headCountKv;
    var q := head / group;
    assert head == group * q + head % group;
    if q >= c.headCountKv {
      ProductMonotone(group, c.headCountKv, q);
    }
  }

  function Scores(k: Kernels, q: Vec, keys: Vec, n: nat): (r: Result<Vec, ModelError>)
    ensures r.Ok? ==> |r.value| == n
  {
    if q == [] || n == 0 || |keys| != n * |q| then Err(Shape)
    else if !AllFinite(q) || !AllFinite(keys) then Err(NonFinite)
    else Build(n, (j: nat) => if j < n then Checked(k.score(q, SlotAt(keys, n, |q|, j))) else Err(Shape))
  }

  /** One head over n positions; a single position passes its value through. */
  function AttendHead(k: Kernels, q: Vec, keys: Vec, values: Vec, n: nat, hd: nat): (r: Result<Vec, ModelError>)
    requires n > 0 && |values| == n * hd
    ensures r.Ok? ==> |r.value| == hd
  {
    if n == 1 then Ok(values)
    else
      var scores :- Scores(k, q, keys, n);
      var probs :- Softmax(k, scores);
      Weighted(k, probs, values, hd)
  }

  /** The first n heads, end to end. */
  function AttendHeads(m: Model, q: Vec, rows: seq<Row>, n: nat): (r: Result<Vec, ModelError>)
    requires ValidConfig(m.config) && ValidRows(m.config, rows) && rows != []
    requires |q| == QLen(m.config) && n <= m.config.headCount
    ensures r.Ok? ==> |r.value| == n * HeadDim(m.config)
    decreases n
  {
    if n == 0 then Ok([])
    else
      var c, hd := m.config, HeadDim(m.config);
      var prev :- AttendHeads(m, q, rows, n - 1);
      var h := KvHead(c, n - 1);
      var head :- AttendHead(m.kernels, HeadOf(q, c.headCount, hd, n - 1), Window(Keys(rows), c.headCountKv, hd, h),
                             Window(Values(rows), c.headCountKv, hd, h), |rows|, hd);
      assert (n - 1) * hd + hd == n * hd;
      Ok(prev + head)
  }

  // ----- one layer -----

  predicate AnyQ8a(ms: seq<Matrix>) {
    exists i :: 0 <= i < |ms| && ms[i].kind == NeedsQ8a
  }

  /** Q8A activations are made once for all matrices that share an input. */
  function SharedQ8a(k: Kernels, ms: seq<Matrix>, h: Vec): Result<Blocks, ModelError> {
    if AnyQ8a(ms) then k.quantizeQ8a(h) else Ok([])
  }

  /** The normalised input of some matrices, and the Q8A activations they share. */
  function Normed(k: Kernels, weight: Vec, ms: seq<Matrix>, x: Vec): Result<(Vec, Blocks), ModelError> {
    var h :- Norm(k, x, weight);
    var q8a :- SharedQ8a(k, ms, h);
    Ok((h, q8a))
  }

  function Biased(k: Kernels, m: Matrix, bias: Option<Vec>, h: Vec, q8a: Blocks): (r: Result<Vec, ModelError>)
    ensures r.Ok? ==> |r.value| == m.rows
  {
    var x :- ProjectShared(k, m, h, q8a);
    AddBias(k, x, bias)
  }

  /** The three projections before rotation. */
  function Projected(m: Model, layer: Layer, x: Vec): (r: Result<(Vec, Vec, Vec), ModelError>)
    ensures r.Ok? ==> |r.value.0| == layer.wq.rows && |r.value.1| == layer.wk.rows && |r.value.2| == layer.wv.rows
  {
    var k := m.kernels;
    var (h, q8a) :- Normed(k, layer.attentionNorm, [layer.wq, layer.wk, layer.wv], x);
    var q :- Biased(k, layer.wq, layer.qBias, h, q8a);
    var key :- Biased(k, layer.wk, layer.kBias, h, q8a);
    var value :- Biased(k, layer.wv, layer.vBias, h, q8a);
    Ok((q, key, value))
  }

  /** Query, key and value vectors of the current position. */
  function Inputs(m: Model, layer: Layer, pos: nat, x: Vec): (r: Result<(Vec, Row), ModelError>)
    requires ValidConfig(m.config) && ValidLayer(m.config, layer)
    ensures r.Ok? ==>
              && |r.value.0| == QLen(m.config)
              && |r.value.1.k| == KvLen(m.config) && |r.value.1.v| == KvLen(m.config)
  {
    var c, k := m.config, m.kernels;
    var half := c.ropeDimensionCount / 2;
    var (q, key, value) :- Projected(m, layer, x);
    var q' :- Rope(k, c.pairing, q, c.headCount, HeadDim(c), Angles(k.cosAt, pos, half), Angles(k.sinAt, pos, half));
    var key' :- Rope(k, c.pairing, key, c.headCountKv, HeadDim(c), Angles(k.cosAt, pos, half),
                     Angles(k.sinAt, pos, half));
    Ok((q', Row(key', value)))
  }

  function Mixed(m: Model, layer: Layer, x: Vec, attn: Vec): (r: Result<Vec, ModelError>)
    ensures r.Ok? ==> |r.value| == |x|
  {
    var t :- Project(m.kernels, layer.wo, attn);
    Add(m.kernels, x, t)
  }

  function Gated(m: Model, layer: Layer, x: Vec): (r: Result<(Vec, Vec), ModelError>)
    ensures r.Ok? ==> |r.value.0| == layer.wGate.rows && |r.value.1| == layer.wUp.rows
  {
    var k := m.kernels;
    var (h, q8a) :- Normed(k, layer.ffnNorm, [layer.wGate, layer.wUp], x);
    var gate :- ProjectShared(k, layer.wGate, h, q8a);
    var up :- ProjectShared(k, layer.wUp, h, q8a);
    Ok((gate, up))
  }

  /** The gated product, brought back to the width of the residual stream and added to it. */
  function Merged(m: Model, layer: Layer, x: Vec, gate: Vec, up: Vec): (r: Result<Vec, ModelError>)
    ensures r.Ok? ==> |r.value| == |x|
  {
    var ff :- Swiglu(m.kernels, gate, up);
    var t :- Project(m.kernels, layer.wDown, ff);
    Add(m.kernels, x, t)
  }

  function Fed(m: Model, layer: Layer, x: Vec): (r: Result<Vec, ModelError>)
    ensures r.Ok? ==> |r.value| == |x|
  {
    var (gate, up) :- Gated(m, layer, x);
    Merged(m, layer, x, gate, up)
  }

  function Finite(row: Row): Result<(), ModelError> {
    if !AllFinite(row.k) || !AllFinite(row.v) then Err(NonFinite) else Ok(())
  }

  /** One layer at the position after the given rows: the new residual stream and the new row. */
  function LayerStep(m: Model, layer: Layer, x: Vec, rows: seq<Row>): (r: Result<(Vec, Row), ModelError>)
    requires ValidConfig(m.config) && ValidLayer(m.config, layer) && ValidRows(m.config, rows)
    ensures r.Ok? ==> |r.value.0| == |x| && |r.value.1.k| == KvLen(m.config) && |r.value.1.v| == KvLen(m.config)
  {
    var (q, row) :- Inputs(m, layer, |rows|, x);
    var _ :- Finite(row);
    var attn :- AttendHeads(m, q, rows + [row], m.config.headCount);
    var x1 :- Mixed(m, layer, x, attn);
    var x2 :- Fed(m, layer, x1);
    Ok((x2, row))
  }

  // ----- one token -----

  lemma RowsGrow(c: Config, rows: seq<Row>, row: Row)
    requires ValidConfig(c) && ValidRows(c, rows) && |row.k| == |row.v| == KvLen(c)
    ensures ValidRows(c, rows + [row])
  {
  }

  /** The first n layers; each appends its row to its own history. */
  function Layers(m: Model, hist: History, pos: nat, x: Vec, n: nat): (r: Result<(Vec, History), ModelError>)
    requires ValidLayout(m) && ValidHistory(m.config, hist, pos) && n <= |hist|
    ensures r.Ok? ==> |r.value.0| == |x| && |r.value.1| == |hist|
    ensures r.Ok? ==> forall l :: 0 <= l < n ==> |r.value.1[l]| == pos + 1 && ValidRows(m.config, r.value.1[l])
    ensures r.Ok? ==> forall l :: n <= l < |hist| ==> r.value.1[l] == hist[l]
    decreases n
  {
    if n == 0 then Ok((x, hist))
    else
      var (y, h) :- Layers(m, hist, pos, x, n - 1);
      var (z, row) :- LayerStep(m, m.layers[n - 1], y, h[n - 1]);
      RowsGrow(m.config, h[n - 1], row);
      Ok((z, h[n - 1 := h[n - 1] + [row]]))
  }

  function Embed(m: Model, token: nat): (r: Result<Vec, ModelError>)
    ensures r.Ok? ==> |r.value| == m.config.embeddingLength
  {
    Build(m.config.embeddingLength, (i: nat) => Checked(m.kernels.embed(token, i)))
  }

  function Output(m: Model, x: Vec): (r: Result<Vec, ModelError>)
    ensures r.Ok? ==> |r.value| == m.output.rows
  {
    var h :- Norm(m.kernels, x, m.outputNorm);
    Project(m.kernels, m.output, h)
  }

  /** The logits after one more token, and the history with its rows. */
  function Step(m: Model, hist: History, pos: nat, token: nat): (r: Result<(Vec, History), ModelError>)
    requires ValidLayout(m) && ValidHistory(m.config, hist, pos)
    ensures r.Ok? ==> |r.value.0| == m.vocab && ValidHistory(m.config, r.value.1, pos + 1)
    ensures r.Ok? ==> pos < m.config.contextLength && token < m.vocab
  {
    if pos >= m.config.contextLength || token >= m.vocab then Err(Shape)
    else
      var x :- Embed(m, token);
      var (y, h) :- Layers(m, hist, pos, x, |hist|);
      var logits :- Output(m, y);
      Ok((logits, h))
  }

  /** The history after a list of tokens, starting from nothing. */
  function HistoryOf(m: Model, tokens: seq<nat>): (r: Result<(Vec, History), ModelError>)
    requires ValidLayout(m)
    ensures r.Ok? ==> ValidHistory(m.config, r.value.1, |tokens|)
    ensures r.Ok? && tokens != [] ==> |r.value.0| == m.vocab
    decreases |tokens|
  {
    if tokens == [] then Ok(([], EmptyHistory(m.config)))
    else
      var n := |tokens| - 1;
      var (_, hist) :- HistoryOf(m, tokens[..n]);
      Step(m, hist, n, tokens[n])
  }

  /** The logits after a list of tokens: a function of the list alone. */
  function LogitsOf(m: Model, tokens: seq<nat>): (r: Result<Vec, ModelError>)
    requires ValidLayout(m)
    ensures r.Ok? && tokens != [] ==> |r.value| == m.vocab
  {
    var (logits, _) :- HistoryOf(m, tokens);
    Ok(logits)
  }

  lemma OneMoreToken(m: Model, tokens: seq<nat>, token: nat)
    requires ValidLayout(m) && HistoryOf(m, tokens).Ok?
    ensures HistoryOf(m, tokens + [token]) == Step(m, HistoryOf(m, tokens).value.1, |tokens|, token)
  {
    hide Step;
    assert (tokens + [token])[..|tokens|] == tokens;
  }
}
