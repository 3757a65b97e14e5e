/** The data flow of one forward step: what each buffer holds, with the arithmetic left uninterpreted. */
module Llama {
  import opened Outcomes
  import opened Floats

  datatype ModelError = Shape | NonFinite

  type Vec = seq<F32>

  /** Quantised activations; their contents are never looked into. */
  type Blocks = seq<nat>

  datatype Config = Config(blockCount: nat, embeddingLength: nat, feedForwardLength: nat, headCount: nat,
                           headCountKv: nat, ropeDimensionCount: nat, pairing: Pairing, contextLength: nat)

  /** Which elements of a head are rotated together. */
  datatype Pairing = Adjacent | SplitHalf

  /** Which activations a matrix multiplies: plain ones, or one of two quantised forms. */
  datatype Kind = Plain | NeedsQ8a | NeedsQ8k

  datatype Matrix = Matrix(rows: nat, cols: nat, kind: Kind, dot: (Vec, Blocks, nat) -> Result<F32, ModelError>)

  datatype Layer = Layer(attentionNorm: Vec, wq: Matrix, qBias: Option<Vec>, wk: Matrix, kBias: Option<Vec>,
                         wv: Matrix, vBias: Option<Vec>, wo: Matrix, ffnNorm: Vec,
                         wGate: Matrix, wUp: Matrix, wDown: Matrix)

  /** What the numeric kernels compute, mostly number by number. */
  datatype Kernels = Kernels(
    normScale: Vec -> F32,
    scaled: (F32, F32, F32) -> F32,
    quantizeQ8a: Vec -> Result<Blocks, ModelError>,
    quantizeQ8k: Vec -> Result<Blocks, ModelError>,
    add: (F32, F32) -> F32,
    cosAt: (nat, nat) -> F32,
    sinAt: (nat, nat) -> F32,
    rotateFirst: (F32, F32, F32, F32) -> F32,
    rotateSecond: (F32, F32, F32, F32) -> F32,
    score: (Vec, Vec) -> F32,
    shiftedExp: (F32, F32) -> F32,
    sum: Vec -> F32,
    divide: (F32, F32) -> F32,
    multiplyAdd: (F32, F32, F32) -> F32,
    swiglu: (F32, F32) -> F32,
    embed: (nat, nat) -> F32)

  datatype Model = Model(config: Config, kernels: Kernels, vocab: nat, layers: seq<Layer>, outputNorm: Vec,
                         output: Matrix)

  function HeadDim(c: Config): nat
    requires c.headCount > 0
  {
    c.embeddingLength / c.headCount
  }

  predicate ValidConfig(c: Config) {
    && c.blockCount > 0 && c.embeddingLength > 0 && c.feedForwardLength > 0 && c.headCount > 0 && c.headCountKv > 0
    && c.contextLength > 0 && c.headCount % c.headCountKv == 0 && c.ropeDimensionCount > 0
    && c.ropeDimensionCount % 2 == 0 && c.embeddingLength % c.headCount == 0 && c.ropeDimensionCount <= HeadDim(c)
  }

  predicate BiasFits(bias: Option<Vec>, n: nat) {
    bias.Some? ==> |bias.value| == n
  }

  /** The layout a loaded model has been checked to have. */
  predicate ValidLayout(m: Model) {
    var c := m.config;
    && ValidConfig(c)
    && |m.layers| == c.blockCount
    && m.vocab > 0 && m.output.rows == m.vocab && m.output.cols == c.embeddingLength
    && |m.outputNorm| == c.embeddingLength
    && forall l :: 0 <= l < |m.layers| ==> ValidLayer(c, m.layers[l])
  }

  predicate ValidLayer(c: Config, layer: Layer)
    requires ValidConfig(c)
  {
    var (d, ff, q, kv) := (c.embeddingLength, c.feedForwardLength, QLen(c), KvLen(c));
    && |layer.attentionNorm| == d && |layer.ffnNorm| == d
    && layer.wq.rows == q && layer.wq.cols == d && BiasFits(layer.qBias, q)
    && layer.wk.rows == kv && layer.wk.cols == d && BiasFits(layer.kBias, kv)
    && layer.wv.rows == kv && layer.wv.cols == d && BiasFits(layer.vBias, kv)
    && layer.wo.rows == d && layer.wo.cols == q
    && layer.wGate.rows == ff && layer.wGate.cols == d
    && layer.wUp.rows == ff && layer.wUp.cols == d
    && layer.wDown.rows == d && layer.wDown.cols == ff
  }

  function QLen(c: Config): nat
    requires c.headCount > 0
  {
    c.headCount * HeadDim(c)
  }

  function KvLen(c: Config): nat
    requires c.headCount > 0
  {
    c.headCountKv * HeadDim(c)
  }

  // ----- kernels as values -----

  /** Whether a buffer now holds what a kernel computes; after an error it may hold anything. */
  ghost predicate Wrote(spec: Result<Vec, ModelError>, r: Result<(), ModelError>, stale: Vec, out: Vec) {
    && |out| == |stale|
    && (spec.Ok? ==> r == Ok(()) && out == spec.value)
    && (spec.Err? ==> r == Err(spec.error))
  }

  /** The same for a buffer that must have n elements and is refused untouched if it has not. */
  ghost predicate WroteExactly(n: nat, spec: Result<Vec, ModelError>, r: Result<(), ModelError>, stale: Vec, out: Vec) {
    if |stale| == n then Wrote(spec, r, stale, out) else r == Err(Shape) && out == stale
  }

  /** Element by element, or the first error. */
  function Build(n: nat, f: nat -> Result<F32, ModelError>): (r: Result<Vec, ModelError>)
    ensures r.Ok? ==> |r.value| == n && forall i :: 0 <= i < n ==> f(i).Ok? && f(i).value == r.value[i]
  {
    if n == 0 then Ok([])
    else
      var rest :- Build(n - 1, f);
      var last :- f(n - 1);
      Ok(rest + [last])
  }

  /** The first failing element decides. */
  lemma {:induction false} BuildStops(n: nat, f: nat -> Result<F32, ModelError>, i: nat)
    requires i < n && Build(i, f).Ok? && f(i).Err?
    ensures Build(n, f) == Err(f(i).error)
    decreases n
  {
    if i < n - 1 {
      BuildStops(n - 1, f, i);
    }
  }

  lemma {:induction false} BuildFails(n: nat, f: nat -> Result<F32, ModelError>, i: nat)
    requires i < n && f(i).Err?
    ensures Build(n, f).Err?
    decreases n
  {
    if i < n - 1 {
      BuildFails(n - 1, f, i);
    }
  }

  lemma {:induction false} BuildSucceeds(n: nat, f: nat -> Result<F32, ModelError>, out: Vec)
    requires |out| == n && forall i :: 0 <= i < n ==> f(i) == Ok(out[i])
    ensures Build(n, f) == Ok(out)
    decreases n
  {
    if n > 0 {
      assert f(n - 1) == Ok(out[n - 1]);
      BuildSucceeds(n - 1, f, out[..n - 1]);
      assert out[..n - 1] + [out[n - 1]] == out;
    } else {
      assert out == [];
    }
  }

  /** An element the kernels reject if it is not finite. */
  function Checked(x: F32): Result<F32, ModelError> {
    if IsFinite(x) then Ok(x) else Err(NonFinite)
  }

  function Norm(k: Kernels, x: Vec, weight: Vec): (r: Result<Vec, ModelError>)
    ensures r.Ok? ==> |r.value| == |x|
  {
    if |x| != |weight| || x == [] then Err(Shape)
    else if !AllFinite(x) || !AllFinite(weight) || !IsFinite(k.normScale(x)) then Err(NonFinite)
    else Build(|x|, (i: nat) => if i < |x| then Checked(k.scaled(x[i], k.normScale(x), weight[i])) else Err(Shape))
  }

  /** Rows of a product; every one must be finite. */
  function Rows(m: Matrix, x: Vec, q: Blocks): (r: Result<Vec, ModelError>)
    ensures r.Ok? ==> |r.value| == m.rows
  {
    Sequential(m.rows, (i: nat) => m.dot(x, q, i))
  }

  /** The value of one row, however rows are computed. */
  type RowKernel = nat -> Result<F32, ModelError>

  /** A row's value, which must be finite. */
  function FiniteRow(f: RowKernel, i: nat): Result<F32, ModelError> {
    var value :- f(i);
    Checked(value)
  }

  /** What the sequential loop over the rows computes. */
  function Sequential(rows: nat, f: RowKernel): (r: Result<Vec, ModelError>)
    ensures r.Ok? ==> |r.value| == rows && forall i :: 0 <= i < rows ==> FiniteRow(f, i) == Ok(r.value[i])
  {
    Build(rows, (i: nat) => FiniteRow(f, i))
  }

  /** A product whose Q8A activations the caller has prepared; Q8K ones are made on the spot. */
  function ProjectShared(k: Kernels, m: Matrix, x: Vec, q8a: Blocks): (r: Result<Vec, ModelError>)
    ensures r.Ok? ==> |r.value| == m.rows
  {
    if |x| != m.cols then Err(Shape)
    else if !AllFinite(x) then Err(NonFinite)
    else
      match m.kind
      case Plain => Rows(m, x, [])
      case NeedsQ8a => Rows(m, x, q8a)
      case NeedsQ8k =>
        var q :- k.quantizeQ8k(x);
        Rows(m, x, q)
  }

  function Project(k: Kernels, m: Matrix, x: Vec): (r: Result<Vec, ModelError>)
    ensures r.Ok? ==> |r.value| == m.rows
  {
    if |x| != m.cols then Err(Shape)
    else if !AllFinite(x) then Err(NonFinite)
    else
      match m.kind
      case Plain => Rows(m, x, [])
      case NeedsQ8a =>
        var q :- k.quantizeQ8a(x);
        Rows(m, x, q)
      case NeedsQ8k =>
        var q :- k.quantizeQ8k(x);
        Rows(m, x, q)
  }

  function Add(k: Kernels, x: Vec, y: Vec): (r: Result<Vec, ModelError>)
    ensures r.Ok? ==> |r.value| == |x|
  {
    if |x| != |y| then Err(Shape)
    else if !AllFinite(x) || !AllFinite(y) then Err(NonFinite)
    else Build(|x|, (i: nat) => if i < |x| then Checked(k.add(x[i], y[i])) else Err(Shape))
  }

  function AddBias(k: Kernels, x: Vec, bias: Option<Vec>): (r: Result<Vec, ModelError>)
    ensures r.Ok? ==> |r.value| == |x|
  {
    if bias.None? then Ok(x) else Add(k, x, bias.value)
  }

  /** The angles of one position. */
  function Angles(at: (nat, nat) -> F32, pos: nat, half: nat): (r: Vec)
    ensures |r| == half
  {
    seq(half, j requires 0 <= j < half => at(pos, j))
  }

  function Swiglu(k: Kernels, gate: Vec, up: Vec): (r: Result<Vec, ModelError>)
    ensures r.Ok? ==> |r.value| == |gate|
  {
    if |gate| != |up| then Err(Shape)
    else if !AllFinite(gate) || !AllFinite(up) then Err(NonFinite)
    else Build(|gate|, (i: nat) => if i < |gate| then Checked(k.swiglu(gate[i], up[i])) else Err(Shape))
  }
}
