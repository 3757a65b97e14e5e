/** The fixture model of the command line's self-test: the assumptions of the theorems about the codec can be met. */
module Fixtures {
  import opened Bits
  import opened Outcomes
  import opened Floats
  import opened Distributions
  import opened Llama
  import opened Workspaces
  import opened Windows
  import opened Forward
  import opened Vocabularies
  import opened Tokenizers
  import opened TokenizerTheorems
  import opened Codec
  import opened CodecTheorems
  import opened CheckpointRuns

  type Dot = (Vec, Blocks, nat) -> Result<F32, ModelError>

  const CONFIG: Config := Config(1, 4, 6, 2, 1, 2, Adjacent, 8)

  function Dense(rows: nat, cols: nat, dot: Dot): Matrix {
    Matrix(rows, cols, Plain, dot)
  }

  /** Its shape; the numbers in its matrices are left to the kernels. */
  function FixtureModel(k: Kernels, dot: Dot, ones: F32): Model {
    var norm := [ones, ones, ones, ones];
    var layer := Layer(norm, Dense(4, 4, dot), None, Dense(2, 4, dot), None, Dense(2, 4, dot), None, Dense(4, 4, dot),
                       norm, Dense(6, 4, dot), Dense(6, 4, dot), Dense(4, 6, dot));
    Model(CONFIG, k, 4, [layer], norm, Dense(4, 4, dot))
  }

  /** Whatever the kernels compute, the fixture has a valid layout, and every window up to its context length is
      usable. */
  lemma FixtureIsUsable(k: Kernels, dot: Dot, ones: F32, weigh: Weigher, nCtx: nat, overlap: nat, escapes: bool)
    requires overlap < nCtx <= 8
    ensures Usable(Settings(FixtureModel(k, dot, ones), weigh, nCtx, overlap, escapes))
  {
    assert HeadDim(CONFIG) == 2;
  }

  lemma {:induction false} FiniteFlat(at: (nat, nat) -> F32, n: nat, half: nat)
    requires forall p: nat, j: nat :: IsFinite(at(p, j))
    ensures AllFinite(Flat(at, n, half))
  {
    if n > 0 {
      FiniteFlat(at, n - 1, half);
    }
  }

  /** Once a codec has started up, an escape as the first symbol can be coded. */
  lemma FirstEscape(c: Settings, b: byte)
    requires Usable(c) && c.escapes && UniformReference(Alphabet(c)).Ok?
    ensures SlotsFor(c, [], [c.model.vocab + b]).Ok?
  {
    hide Usable, LogitsOf, PrefixStart;
    var symbol := c.model.vocab + b;
    UsableLayout(c);
    SlotsForHead(c, [], [symbol]);
    assert WindowOf(c, []) == [];
    assert SlotIn(c, [], symbol).Ok?;
    EscapeKeepsContext(c, symbol);
    assert [symbol][1..] == [];
    SlotsForHead(c, [], []);
  }

  lemma EscapeKeepsContext(c: Settings, symbol: nat)
    requires Usable(c) && c.escapes && symbol >= c.model.vocab
    ensures Push(c, [], symbol) == Ok([])
  {
    hide LogitsOf;
  }

  /** With finite angles the fixture's codec starts up, and some symbols can be coded. */
  lemma FixtureEncodesEscape(k: Kernels, dot: Dot, ones: F32, weigh: Weigher, nCtx: nat, overlap: nat, b: byte)
    requires overlap < nCtx <= 8
    requires forall p: nat, j: nat :: IsFinite(k.cosAt(p, j)) && IsFinite(k.sinAt(p, j))
    ensures var c := Settings(FixtureModel(k, dot, ones), weigh, nCtx, overlap, true);
            Usable(c) && StartUp(c).Ok? && SlotsFor(c, [], [c.model.vocab + b]).Ok?
  {
    hide Usable, Flat, ValidLayout, SlotsFor;
    var c := Settings(FixtureModel(k, dot, ones), weigh, nCtx, overlap, true);
    FixtureIsUsable(k, dot, ones, weigh, nCtx, overlap, true);
    UsableLayout(c);
    FiniteFlat(k.cosAt, nCtx, CONFIG.ropeDimensionCount / 2);
    FiniteFlat(k.sinAt, nCtx, CONFIG.ropeDimensionCount / 2);
    FirstEscape(c, b);
  }

  /** A tokenizer that knows one byte. */
  function OneByte(b: byte): Tokenizer {
    Pairs(ByteBpe(map[b := 0], map[0 := [b]], map[]))
  }

  /** With the fixture and a tokenizer that knows one byte, that byte escaped is a payload of length one that
      decompresses and that the compressor never makes. */
  lemma FixtureAcceptsEscapedToken(k: Kernels, dot: Dot, ones: F32, weigh: Weigher, nCtx: nat, overlap: nat, b: byte)
    requires overlap < nCtx <= 8
    requires forall p: nat, j: nat :: IsFinite(k.cosAt(p, j)) && IsFinite(k.sinAt(p, j))
    ensures var c := Settings(FixtureModel(k, dot, ones), weigh, nCtx, overlap, true);
            && ValidLayout(c.model) && EncodeSymbols(c, [c.model.vocab + b]).Ok?
            && var payload := EncodeSymbols(c, [c.model.vocab + b]).value;
               && Decompress(c, OneByte(b), payload, 1) == Ok([b])
               && forall input :: |input| == 1 ==> Compress(c, OneByte(b), input) != Ok(payload)
  {
    hide Usable, ValidLayout, SlotsFor, Compress, Decompress, StartUp;
    var c := Settings(FixtureModel(k, dot, ones), weigh, nCtx, overlap, true);
    FixtureEncodesEscape(k, dot, ones, weigh, nCtx, overlap, b);
    UsableLayout(c);
    assert CheckedWindow(c).Ok?;
    OneByteIsSound(b);
    EscapedTokenIsAccepted(c, OneByte(b), b, EncodeSymbols(c, [c.model.vocab + b]).value);
  }

  lemma OneByteIsSound(b: byte)
    ensures Sound(OneByte(b), 4) && b in BytesOf(OneByte(b))
  {
  }
}
