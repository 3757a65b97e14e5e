/** The windowed codec as functions: every symbol is coded under the logits of its window, replayed from nothing. */
module Codec {
  import opened Bits
  import opened Outcomes
  import opened Floats
  import opened RangeCoder
  import opened RangeTheorems
  import opened Distributions
  import opened Windows
  import opened Llama
  import opened Forward
  import opened Vocabularies
  import opened Tokenizers
  import opened Workspaces

  datatype CodecError =
    | Window(window: WindowError)
    | Forwarding(model: ModelError)
    | Distributing(cdf: CdfError)
    | Coding(range: RangeError)
    | Detokenizing(token: TokenError)
    | OutsideVocabulary(symbol: nat)
    | NoBytes(symbol: nat)
    | NotCanonical
    | PositionMismatch
    | WindowOverrun
    | LookupFailed(value: nat)

  /** What compressor and decompressor must agree on. */
  datatype Settings = Settings(model: Model, weigh: Weigher, nCtx: nat, overlap: nat, escapes: bool)

  ghost predicate Usable(c: Settings) {
    ValidLayout(c.model) && ValidateWindow(c.nCtx, c.overlap, c.model.config.contextLength).Ok?
  }

  function Tail(c: Settings): nat {
    if c.escapes then BYTE_ESCAPE_SYMBOLS else 0
  }

  /** How many symbols can be coded. */
  function Alphabet(c: Settings): nat {
    c.model.vocab + Tail(c)
  }

  /** The tokens the next symbol is conditioned on. */
  function WindowOf(c: Settings, tokens: seq<nat>): (window: seq<nat>)
    requires c.overlap < c.nCtx
    ensures |window| < c.nCtx
  {
    tokens[SyncedStart(|tokens|, c.nCtx, c.overlap)..]
  }

  // ----- one symbol -----

  function Lift<T>(r: Result<T, CdfError>): Result<T, CodecError> {
    match r
    case Ok(value) => Ok(value)
    case Err(e) => Err(Distributing(e))
  }

  function LogitsIn(c: Settings, window: seq<nat>): (r: Result<seq<F32>, CodecError>)
    requires ValidLayout(c.model)
    ensures r.Ok? && window != [] ==> |r.value| == c.model.vocab
  {
    match LogitsOf(c.model, window)
    case Ok(logits) => Ok(logits)
    case Err(e) => Err(Forwarding(e))
  }

  /** The distribution of the next symbol; before any token it is uniform. */
  function FrequenciesIn(c: Settings, window: seq<nat>): (r: Result<seq<u32>, CodecError>)
    requires ValidLayout(c.model)
    ensures r.Ok? ==> |r.value| == Alphabet(c) <= MAX_SYMBOLS && Positive(r.value) && Total(r.value) < MAX_TOTAL
  {
    if window == [] then
      OnesTotal(Alphabet(c));
      Lift(UniformReference(Alphabet(c)))
    else
      var logits :- LogitsIn(c, window);
      Lift(Reference(c.weigh, logits, Tail(c)))
  }

  /** The encoder's step: the slot of one symbol. A symbol outside the alphabet is found out
      before the logits are looked at. */
  function SlotIn(c: Settings, window: seq<nat>, symbol: nat): (r: Result<Slot, CodecError>)
    requires ValidLayout(c.model)
  {
    if window == [] then Lift(UniformSymbolRange(symbol, Alphabet(c)))
    else
      var logits :- LogitsIn(c, window);
      var freq := Reference(c.weigh, logits, Tail(c));
      if Alphabet(c) <= MAX_SYMBOLS && symbol >= Alphabet(c) then Err(Distributing(CdfError.SymbolOutOfRange))
      else if freq.Err? then Err(Distributing(freq.error))
      else Ok(SlotOf(freq.value, symbol))
  }

  /** The encoder's slot is the decoder's: both come from the same distribution. */
  lemma SlotInDistribution(c: Settings, window: seq<nat>, symbol: nat)
    requires ValidLayout(c.model)
    ensures SlotIn(c, window, symbol).Ok? <==> FrequenciesIn(c, window).Ok? && symbol < Alphabet(c)
    ensures SlotIn(c, window, symbol).Ok? ==>
              var freq := FrequenciesIn(c, window).value;
              SlotIn(c, window, symbol) == Ok(SlotOf(freq, symbol)) && Validate(SlotOf(freq, symbol))
  {
    hide LogitsOf, SlotOf, Total, Frequencies, Ones, Validate, Positive;
    if FrequenciesIn(c, window).Ok? && symbol < Alphabet(c) {
      SlotIsValid(FrequenciesIn(c, window).value, symbol);
    }
  }

  // ----- one symbol, written out -----

  /** The share of a symbol under the model: of as many equal ones as there are symbols before any token, and otherwise
      of the weights of the window's logits, each and one more, with one for each escape behind them. */
  ghost predicate IsModelSlot(c: Settings, window: seq<nat>, symbol: nat, slot: Slot)
    requires ValidLayout(c.model)
  {
    var tail := if c.escapes then 256 else 0;
    if window == [] then
      symbol < c.model.vocab + tail <= 0x4_0000 && slot == Slot(symbol, 1, c.model.vocab + tail)
    else
      var logits := LogitsOf(c.model, window);
      && logits.Ok?
      && exists sums :: IsAccepted(c.weigh, logits.value, tail, sums) && IsShare(sums, symbol, slot)
  }

  /** Why there is no distribution. */
  ghost predicate IsModelError(c: Settings, window: seq<nat>, e: CodecError)
    requires ValidLayout(c.model)
  {
    var tail := if c.escapes then 256 else 0;
    if window == [] then c.model.vocab + tail > 0x4_0000 && e == Distributing(TooManySymbols)
    else
      match LogitsOf(c.model, window)
      case Err(x) => e == Forwarding(x)
      case Ok(logits) => e.Distributing? && IsRefused(c.weigh, logits, tail, e.cdf)
  }

  /** Why a symbol has no share: it is none, or there is no distribution. Logits that cannot be computed come first,
      ones that are no good last. */
  ghost predicate IsSlotError(c: Settings, window: seq<nat>, symbol: nat, e: CodecError)
    requires ValidLayout(c.model)
  {
    var n := c.model.vocab + if c.escapes then 256 else 0;
    if symbol >= n && n <= 0x4_0000 && (window == [] || LogitsOf(c.model, window).Ok?)
    then e == Distributing(CdfError.SymbolOutOfRange)
    else IsModelError(c, window, e)
  }

  lemma SlotWrittenOut(c: Settings, window: seq<nat>, symbol: nat)
    requires ValidLayout(c.model)
    ensures var r := SlotIn(c, window, symbol);
            if r.Ok? then IsModelSlot(c, window, symbol, r.value) else IsSlotError(c, window, symbol, r.error)
  {
    hide LogitsOf, IsAccepted, IsShare, IsRefused, SlotOf, Reference, ValidLayout;
    if window != [] && LogitsOf(c.model, window).Ok? {
      var logits := LogitsOf(c.model, window).value;
      LogitsPerToken(c, window);
      ReferenceWrittenOut(c.weigh, logits, Tail(c));
      RefusedBecause(c.weigh, logits, Tail(c));
    } else {
      VocabularyNotEmpty(c);
    }
  }

  lemma LogitsPerToken(c: Settings, window: seq<nat>)
    requires ValidLayout(c.model) && window != [] && LogitsOf(c.model, window).Ok?
    ensures |LogitsOf(c.model, window).value| == c.model.vocab > 0
  {
    hide HistoryOf;
  }

  lemma VocabularyNotEmpty(c: Settings)
    requires ValidLayout(c.model)
    ensures c.model.vocab > 0
  {
  }

  lemma RefusedBecause(weigh: Weigher, logits: seq<F32>, tail: nat)
    requires logits != []
    ensures var r := Reference(weigh, logits, tail);
            if |logits| + tail > 0x4_0000 then r == Err(TooManySymbols)
            else r.Ok? ==> |r.value| == |logits| + tail
  {
  }

  /** The frequencies the decoder works with, written out in the same way. */
  lemma FrequenciesWrittenOut(c: Settings, window: seq<nat>)
    requires ValidLayout(c.model)
    ensures var r := FrequenciesIn(c, window);
            if r.Err? then IsModelError(c, window, r.error)
            else forall s :: 0 <= s < |r.value| ==> IsModelSlot(c, window, s, SlotOf(r.value, s))
  {
    hide LogitsOf, SlotOf, IsAccepted, IsShare, IsRefused;
    var r := FrequenciesIn(c, window);
    if r.Err? {
      SlotWrittenOut(c, window, 0);
      SlotInDistribution(c, window, 0);
      VocabularyNotEmpty(c);
      assert IsSlotError(c, window, 0, SlotIn(c, window, 0).error);
    } else {
      forall s | 0 <= s < |r.value|
        ensures IsModelSlot(c, window, s, SlotOf(r.value, s))
      {
        SlotWrittenOut(c, window, s);
        SlotInDistribution(c, window, s);
      }
    }
  }

  /** The context after a symbol: escapes do not enter it, and a token that does must be forwarded after the window. */
  function PushAfter(c: Settings, window: seq<nat>, tokens: seq<nat>, symbol: nat): (r: Result<seq<nat>, CodecError>)
    requires ValidLayout(c.model)
    ensures r.Ok? ==> r.value == if SymbolIsToken(symbol, c.model.vocab) then tokens + [symbol] else tokens
  {
    if c.escapes && !SymbolIsToken(symbol, c.model.vocab) then Ok(tokens)
    else if symbol >= c.model.vocab then Err(OutsideVocabulary(symbol))
    else
      match LogitsOf(c.model, window + [symbol])
      case Ok(_) => Ok(tokens + [symbol])
      case Err(e) => Err(Forwarding(e))
  }

  function Push(c: Settings, tokens: seq<nat>, symbol: nat): (r: Result<seq<nat>, CodecError>)
    requires Usable(c)
    ensures r.Ok? ==> r.value == if SymbolIsToken(symbol, c.model.vocab) then tokens + [symbol] else tokens
  {
    PushAfter(c, WindowOf(c, tokens), tokens, symbol)
  }

  // ----- encoding -----

  function SlotsFor(c: Settings, tokens: seq<nat>, symbols: seq<nat>): (r: Result<seq<Slot>, CodecError>)
    requires Usable(c)
    ensures r.Ok? ==> |r.value| == |symbols| && AllValid(r.value)
    decreases |symbols|
  {
    if symbols == [] then Ok([])
    else
      SlotInDistribution(c, WindowOf(c, tokens), symbols[0]);
      var slot :- SlotIn(c, WindowOf(c, tokens), symbols[0]);
      var next :- Push(c, tokens, symbols[0]);
      var rest :- SlotsFor(c, next, symbols[1..]);
      Ok([slot] + rest)
  }

  /** What must hold before the first symbol. */
  function StartUp(c: Settings): Result<(), CodecError>
    requires ValidLayout(c.model)
  {
    if c.nCtx == 0 then Err(Forwarding(Shape))
    else if !FiniteAngles(c.model, c.nCtx) then Err(Forwarding(NonFinite))
    else if UniformReference(Alphabet(c)).Err? then Err(Distributing(UniformReference(Alphabet(c)).error))
    else Ok(())
  }

  function CheckedWindow(c: Settings): Result<(), CodecError> {
    match ValidateWindow(c.nCtx, c.overlap, c.model.config.contextLength)
    case Ok(_) => Ok(())
    case Err(e) => Err(Window(e))
  }

  function EncodeSymbols(c: Settings, symbols: seq<nat>): Result<seq<byte>, CodecError>
    requires ValidLayout(c.model)
  {
    var _ :- CheckedWindow(c);
    var _ :- StartUp(c);
    WholeIsReady();
    var slots :- SlotsFor(c, [], symbols);
    Ok(Emitted(WHOLE, slots))
  }

  // ----- decoding -----

  datatype Decoded = Decoded(bytes: seq<byte>, symbols: seq<nat>)

  function DecodeNext(c: Settings, window: seq<nat>, d: DecoderState, input: seq<byte>)
    : (r: (DecoderState, Result<nat, CodecError>))
    requires ValidLayout(c.model) && DecoderInv(d)
    ensures DecoderInv(r.0)
    ensures r.1.Ok? ==> r.1.value < Alphabet(c)
  {
    var freq := FrequenciesIn(c, window);
    if freq.Err? then (d, Err(freq.error))
    else
      var (e, value) := DecodeFreq(d, Total(freq.value));
      if value.Err? then (e, Err(Coding(value.error)))
      else
        var symbol := SymbolAt(freq.value, value.value);
        var (t, done) := Advance(e, SlotOf(freq.value, symbol), input);
        (t, if done.Err? then Err(Coding(done.error)) else Ok(symbol))
  }

  /** Decoding under the model: the value found lies in the symbol's share, and the decoder moves on by it. */
  ghost predicate IsDecoded(c: Settings, window: seq<nat>, d: DecoderState, input: seq<byte>, symbol: nat,
                            e: DecoderState)
    requires ValidLayout(c.model) && DecoderInv(d)
  {
    exists slot ::
      && IsModelSlot(c, window, symbol, slot)
      && var (found, value) := DecodeFreq(d, slot.total);
         && value.Ok? && slot.cum <= value.value < slot.cum + slot.freq
         && Advance(found, slot, input).1.Ok? && Advance(found, slot, input).0 == e
  }

  /** Nothing is decoded: there is no distribution, or no value, or not enough input to move on. */
  ghost predicate IsDecodeError(c: Settings, window: seq<nat>, d: DecoderState, input: seq<byte>, e: CodecError)
    requires ValidLayout(c.model) && DecoderInv(d)
  {
    if !e.Coding? then IsModelError(c, window, e)
    else
      exists symbol, slot ::
        && IsModelSlot(c, window, symbol, slot)
        && var (found, value) := DecodeFreq(d, slot.total);
           if value.Err? then e.range == value.error
           else
             && slot.cum <= value.value < slot.cum + slot.freq
             && Advance(found, slot, input).1 == Err(e.range)
  }

  lemma DecodeWrittenOut(c: Settings, window: seq<nat>, d: DecoderState, input: seq<byte>)
    requires ValidLayout(c.model) && DecoderInv(d)
    ensures var (e, r) := DecodeNext(c, window, d, input);
            if r.Ok? then IsDecoded(c, window, d, input, r.value, e) else IsDecodeError(c, window, d, input, r.error)
  {
    hide FrequenciesIn, IsModelSlot, IsModelError, DecodeFreq, Advance, DecoderInv, ValidLayout, Total;
    FrequenciesWrittenOut(c, window);
    var freq := FrequenciesIn(c, window);
    if freq.Err? {
      NotCoding(c, window, freq.error);
    } else {
      var value := DecodeFreq(d, Total(freq.value)).1;
      var symbol := if value.Ok? then SymbolAt(freq.value, value.value) else 0;
      VocabularyNotEmpty(c);
      var slot := SlotOf(freq.value, symbol);
      assert IsModelSlot(c, window, symbol, slot) && slot.total == Total(freq.value);
      assert value.Ok? ==> slot.cum <= value.value < slot.cum + slot.freq;
    }
  }

  lemma NotCoding(c: Settings, window: seq<nat>, e: CodecError)
    requires ValidLayout(c.model) && IsModelError(c, window, e)
    ensures !e.Coding?
  {
  }

  /** The bytes one symbol stands for; there must be some. */
  function Piece(c: Settings, t: Tokenizer, symbol: nat): (r: Result<seq<byte>, CodecError>)
    ensures r.Ok? ==> r.value != []
  {
    var piece := if c.escapes then DecodeSymbol(t, symbol, c.model.vocab)
                 else if symbol >= MAX_TOKENS then Err(TokenIndexOverflow)
                 else Detokenize(t, [symbol]);
    if piece.Err? then Err(Detokenizing(piece.error))
    else if piece.value == [] then Err(NoBytes(symbol))
    else Ok(piece.value)
  }

  function DecodeBytes(c: Settings, t: Tokenizer, tokens: seq<nat>, d: DecoderState, input: seq<byte>, need: nat)
    : (r: Result<Decoded, CodecError>)
    requires Usable(c) && DecoderInv(d)
    ensures r.Ok? ==> |r.value.bytes| >= need
    decreases need
  {
    if need == 0 then Ok(Decoded([], []))
    else
      var (e, next) := DecodeNext(c, WindowOf(c, tokens), d, input);
      var symbol :- next;
      var piece :- Piece(c, t, symbol);
      var context :- Push(c, tokens, symbol);
      var rest :- DecodeBytes(c, t, context, e, input, SaturatingSub(need, |piece|));
      Ok(Decoded(piece + rest.bytes, [symbol] + rest.symbols))
  }

  /** Decoding by byte count. */
  function DecodePayload(c: Settings, t: Tokenizer, payload: seq<byte>, need: nat): (r: Result<Decoded, CodecError>)
    requires ValidLayout(c.model)
    ensures r.Ok? ==> |r.value.bytes| >= need
  {
    var _ :- CheckedWindow(c);
    var d := DecoderNew(payload);
    if d.Err? then Err(Coding(d.error))
    else
      var _ :- StartUp(c);
      DecodeBytes(c, t, [], d.value, payload, need)
  }

  /** Decoding followed by the check that the payload is the one encoding would have made. */
  function DecodeCanonical(c: Settings, t: Tokenizer, payload: seq<byte>, need: nat): (r: Result<Decoded, CodecError>)
    requires ValidLayout(c.model)
    ensures r.Ok? ==> |r.value.bytes| >= need
  {
    var decoded :- DecodePayload(c, t, payload, need);
    var canonical :- EncodeSymbols(c, decoded.symbols);
    if canonical != payload then Err(NotCanonical) else Ok(decoded)
  }

  // ----- files -----

  function Compress(c: Settings, t: Tokenizer, input: seq<byte>): Result<seq<byte>, CodecError>
    requires ValidLayout(c.model)
  {
    match CodecSymbols(t, input, c.model.vocab)
    case Ok(symbols) => EncodeSymbols(c, symbols)
    case Err(e) => Err(Detokenizing(e))
  }

  function Decompress(c: Settings, t: Tokenizer, payload: seq<byte>, originalLength: nat): Result<seq<byte>, CodecError>
    requires ValidLayout(c.model)
  {
    var decoded :- DecodeCanonical(c, t, payload, originalLength);
    Ok(decoded.bytes[..originalLength])
  }
}
