/** The windowed codec is lossless, and accepts exactly the payloads that encoding makes. */
module CodecTheorems {
  import opened Bits
  import opened Outcomes
  import opened Floats
  import opened RangeCoder
  import opened RangeTheorems
  import opened Distributions
  import opened Windows
  import opened Llama
  import opened Vocabularies
  import opened Tokenizers
  import opened TokenizerTheorems
  import opened Codec

  /** The pieces of the symbols make up the bytes, and it takes the last of them to reach `need`. */
  ghost predicate Reaches(c: Settings, t: Tokenizer, symbols: seq<nat>, need: nat, bytes: seq<byte>)
    decreases |symbols|
  {
    if need == 0 then symbols == [] && bytes == []
    else
      && symbols != []
      && var piece := Piece(c, t, symbols[0]);
      && piece.Ok? && piece.value <= bytes
      && Reaches(c, t, symbols[1..], SaturatingSub(need, |piece.value|), bytes[|piece.value|..])
  }

  lemma FirstSymbol(c: Settings, tokens: seq<nat>, symbols: seq<nat>)
    requires Usable(c) && symbols != [] && SlotsFor(c, tokens, symbols).Ok?
    ensures var freq := FrequenciesIn(c, WindowOf(c, tokens));
            && freq.Ok? && symbols[0] < |freq.value|
            && Push(c, tokens, symbols[0]).Ok?
            && SlotsFor(c, Push(c, tokens, symbols[0]).value, symbols[1..]).Ok?
            && SlotsFor(c, tokens, symbols).value ==
               [SlotOf(freq.value, symbols[0])] + SlotsFor(c, Push(c, tokens, symbols[0]).value, symbols[1..]).value
  {
    hide FrequenciesIn, SlotIn, Push, SlotOf, Validate;
    SlotInDistribution(c, WindowOf(c, tokens), symbols[0]);
  }

  /** A value inside the slot of a symbol decodes to that symbol. */
  lemma NextIsSymbol(c: Settings, window: seq<nat>, symbol: nat, s: Interval, input: seq<byte>, pos: nat)
    requires ValidLayout(c.model) && FrequenciesIn(c, window).Ok? && symbol < |FrequenciesIn(c, window).value|
    requires Ready(s) && 8 <= pos <= |input|
    requires Validate(SlotOf(FrequenciesIn(c, window).value, symbol))
    requires Stepped(s, SlotOf(FrequenciesIn(c, window).value, symbol), input, pos)
    ensures var (t, out) := EncodeStep(s, SlotOf(FrequenciesIn(c, window).value, symbol));
            if pos + |out| <= |input| then
              DecodeNext(c, window, Mirror(s, input, pos), input) == (Mirror(t, input, pos + |out|), Ok(symbol))
            else DecodeNext(c, window, Mirror(s, input, pos), input).1 == Err(Coding(UnexpectedEof))
  {
    hide FrequenciesIn, EncodeStep, DecodeFreq, Advance, Inv, Word8, ValidLayout;
    var freq := FrequenciesIn(c, window).value;
    SymbolUnique(freq, DecodeFreq(Mirror(s, input, pos), Total(freq)).1.value, symbol);
  }

  /** Decoding a whole, truncated or extended payload from the middle on. */
  lemma {:induction false} SymbolsFollow(c: Settings, t: Tokenizer, tokens: seq<nat>, symbols: seq<nat>, need: nat,
                                         bytes: seq<byte>, s: Interval, full: seq<byte>, input: seq<byte>, pos: nat)
    requires Usable(c) && Ready(s) && Reaches(c, t, symbols, need, bytes) && SlotsFor(c, tokens, symbols).Ok?
    requires 8 <= pos <= |full| && full[pos - 8..] == Emitted(s, SlotsFor(c, tokens, symbols).value)
    requires pos <= |input| && (input <= full || full <= input)
    ensures DecodeBytes(c, t, tokens, Mirror(s, input, pos), input, need) ==
            if |full| <= |input| then Ok(Decoded(bytes, symbols)) else Err(Coding(UnexpectedEof))
    decreases |symbols|
  {
    hide EncodeStep, DecodeNext, Inv, Validate, Word8, SlotOf, Emitted, FrequenciesIn, Push, Piece, Usable, WindowOf;
    hide SlotsFor, Stepped, Reaches, DecodeBytes;
    if need == 0 {
      NothingNeeded(c, t, tokens, symbols, bytes, s, full, input, pos);
    } else {
      ReachesTurn(c, t, symbols, need, bytes);
      FirstSymbol(c, tokens, symbols);
      UsableLayout(c);
      var slots := SlotsFor(c, tokens, symbols).value;
      var window, next := WindowOf(c, tokens), Push(c, tokens, symbols[0]).value;
      assert slots[1..] == SlotsFor(c, next, symbols[1..]).value;
      DecodeStepFollows(s, slots, full, input, pos);
      NextIsSymbol(c, window, symbols[0], s, input, pos);
      var (s', out) := EncodeStep(s, slots[0]);
      var piece := Piece(c, t, symbols[0]).value;
      DecodeBytesTurn(c, t, tokens, Mirror(s, input, pos), input, need);
      if pos + |out| <= |input| {
        SymbolsFollow(c, t, next, symbols[1..], SaturatingSub(need, |piece|), bytes[|piece|..], s', full, input,
                      pos + |out|);
        HeadAndTail(symbols, piece, bytes);
      }
    }
  }

  lemma HeadAndTail(symbols: seq<nat>, piece: seq<byte>, bytes: seq<byte>)
    requires symbols != [] && piece <= bytes
    ensures [symbols[0]] + symbols[1..] == symbols && piece + bytes[|piece|..] == bytes
  {
  }

  lemma UsableLayout(c: Settings)
    requires Usable(c)
    ensures ValidLayout(c.model) && c.overlap < c.nCtx
  {
  }

  lemma NothingNeeded(c: Settings, t: Tokenizer, tokens: seq<nat>, symbols: seq<nat>, bytes: seq<byte>, s: Interval,
                      full: seq<byte>, input: seq<byte>, pos: nat)
    requires Usable(c) && Ready(s) && Reaches(c, t, symbols, 0, bytes)
    requires SlotsFor(c, tokens, symbols).Ok?
    requires 8 <= pos <= |full| && pos <= |input| && full[pos - 8..] == Emitted(s, SlotsFor(c, tokens, symbols).value)
    ensures |full| == pos && bytes == [] && symbols == []
    ensures DecodeBytes(c, t, tokens, Mirror(s, input, pos), input, 0) == Ok(Decoded([], []))
  {
  }

  lemma ReachesTurn(c: Settings, t: Tokenizer, symbols: seq<nat>, need: nat, bytes: seq<byte>)
    requires need > 0
    ensures Reaches(c, t, symbols, need, bytes) <==>
              && symbols != []
              && var piece := Piece(c, t, symbols[0]);
              && piece.Ok? && piece.value <= bytes
              && Reaches(c, t, symbols[1..], SaturatingSub(need, |piece.value|), bytes[|piece.value|..])
  {
  }

  /** One turn of the decoding loop. */
  lemma DecodeBytesTurn(c: Settings, t: Tokenizer, tokens: seq<nat>, d: DecoderState, input: seq<byte>, need: nat)
    requires Usable(c) && DecoderInv(d) && need > 0
    ensures ValidLayout(c.model)
    ensures var (e, next) := DecodeNext(c, WindowOf(c, tokens), d, input);
            DecodeBytes(c, t, tokens, d, input, need) ==
            if next.Err? then Err(next.error)
            else
              var piece := Piece(c, t, next.value);
              if piece.Err? then Err(piece.error)
              else
                var context := Push(c, tokens, next.value);
                if context.Err? then Err(context.error)
                else
                  Behind(piece.value, next.value,
                         DecodeBytes(c, t, context.value, e, input, SaturatingSub(need, |piece.value|)))
  {
    hide DecodeNext, Push, Piece, DecoderInv, ValidLayout, WindowOf;
  }

  /** A decoded rest with one symbol in front. */
  function Behind(piece: seq<byte>, symbol: nat, rest: Result<Decoded, CodecError>): Result<Decoded, CodecError> {
    if rest.Err? then rest else Ok(Decoded(piece + rest.value.bytes, [symbol] + rest.value.symbols))
  }

  /** What comes out of the loop reaches the byte count with its last symbol. */
  lemma {:induction false} DecodedReaches(c: Settings, t: Tokenizer, tokens: seq<nat>, d: DecoderState,
                                          input: seq<byte>, need: nat)
    requires Usable(c) && DecoderInv(d) && DecodeBytes(c, t, tokens, d, input, need).Ok?
    ensures var r := DecodeBytes(c, t, tokens, d, input, need).value;
            Reaches(c, t, r.symbols, need, r.bytes)
    decreases need
  {
    hide DecodeNext, Push, Piece, DecoderInv, Usable, WindowOf, Reaches, DecodeBytes;
    if need == 0 {
      NothingDecoded(c, t, tokens, d, input);
    } else {
      UsableLayout(c);
      DecodeBytesTurn(c, t, tokens, d, input, need);
      var (e, next) := DecodeNext(c, WindowOf(c, tokens), d, input);
      var piece, context := Piece(c, t, next.value).value, Push(c, tokens, next.value).value;
      var r, rest := DecodeBytes(c, t, tokens, d, input, need).value, SaturatingSub(need, |piece|);
      DecodedReaches(c, t, context, e, input, rest);
      assert r.symbols[1..] == DecodeBytes(c, t, context, e, input, rest).value.symbols;
      assert r.bytes[|piece|..] == DecodeBytes(c, t, context, e, input, rest).value.bytes;
      ReachesTurn(c, t, r.symbols, need, r.bytes);
    }
  }

  lemma NothingDecoded(c: Settings, t: Tokenizer, tokens: seq<nat>, d: DecoderState, input: seq<byte>)
    requires Usable(c) && DecoderInv(d)
    ensures DecodeBytes(c, t, tokens, d, input, 0) == Ok(Decoded([], []))
    ensures Reaches(c, t, [], 0, [])
  {
  }

  // ----- whole payloads -----

  /** A payload, whole, cut short or extended. */
  lemma PayloadFollows(c: Settings, t: Tokenizer, symbols: seq<nat>, need: nat, bytes: seq<byte>, input: seq<byte>)
    requires ValidLayout(c.model) && EncodeSymbols(c, symbols).Ok? && Reaches(c, t, symbols, need, bytes)
    requires var full := EncodeSymbols(c, symbols).value; input <= full || full <= input
    ensures var full := EncodeSymbols(c, symbols).value;
            DecodeCanonical(c, t, input, need) ==
            if input == full then Ok(Decoded(bytes, symbols))
            else if |input| < |full| then Err(Coding(UnexpectedEof))
            else Err(NotCanonical)
  {
    hide ValidLayout, Emitted, SlotsFor, DecodeBytes, Reaches, StartUp;
    if |input| >= 8 {
      var full := EncodeSymbols(c, symbols).value;
      OpenedMirrors(input);
      assert full[0..] == full;
      SymbolsFollow(c, t, [], symbols, need, bytes, WHOLE, full, input, 8);
    }
  }

  /** Decompression accepts a payload, with this outcome, exactly when encoding the outcome's symbols makes that payload
      and it takes the last of them to reach the length. */
  lemma DecodeIffEncoded(c: Settings, t: Tokenizer, payload: seq<byte>, need: nat, d: Decoded)
    requires ValidLayout(c.model)
    ensures DecodeCanonical(c, t, payload, need) == Ok(d) <==>
            EncodeSymbols(c, d.symbols) == Ok(payload) && Reaches(c, t, d.symbols, need, d.bytes)
  {
    hide ValidLayout, Reaches, SlotsFor, StartUp, Emitted, DecodeBytes;
    if EncodeSymbols(c, d.symbols) == Ok(payload) && Reaches(c, t, d.symbols, need, d.bytes) {
      PayloadFollows(c, t, d.symbols, need, d.bytes, payload);
    }
    if DecodeCanonical(c, t, payload, need) == Ok(d) {
      DecodedReaches(c, t, [], DecoderNew(payload).value, payload, need);
    }
  }

  // ----- end to end -----

  /** Symbols that can be coded and decode one after another to some bytes also do so in the codec's loop. */
  lemma {:induction false} DecodeToReaches(c: Settings, t: Tokenizer, tokens: seq<nat>, symbols: seq<nat>,
                                           bytes: seq<byte>)
    requires Usable(c) && SlotsFor(c, tokens, symbols).Ok? && DecodeTo(t, c.model.vocab, symbols, bytes)
    ensures Reaches(c, t, symbols, |bytes|, bytes)
    decreases |symbols|
  {
    hide FrequenciesIn, SlotOf, Push, WindowOf, SlotsFor, Usable, DecodeSymbol;
    if symbols != [] {
      UsableLayout(c);
      FirstSymbol(c, tokens, symbols);
      var piece := DecodeSymbol(t, symbols[0], c.model.vocab).value;
      AlphabetFits(c, WindowOf(c, tokens));
      PieceOfSymbol(c, t, symbols[0]);
      DecodeToReaches(c, t, Push(c, tokens, symbols[0]).value, symbols[1..], bytes[|piece|..]);
    }
  }

  lemma AlphabetFits(c: Settings, window: seq<nat>)
    requires ValidLayout(c.model) && FrequenciesIn(c, window).Ok?
    ensures |FrequenciesIn(c, window).value| == Alphabet(c) <= MAX_SYMBOLS
  {
  }

  /** With and without escapes a symbol that can be coded stands for the same bytes. */
  lemma PieceOfSymbol(c: Settings, t: Tokenizer, symbol: nat)
    requires symbol < Alphabet(c) <= MAX_SYMBOLS
    requires DecodeSymbol(t, symbol, c.model.vocab).Ok? && DecodeSymbol(t, symbol, c.model.vocab).value != []
    ensures Piece(c, t, symbol) == Ok(DecodeSymbol(t, symbol, c.model.vocab).value)
  {
  }

  /** Whatever compresses is restored, byte for byte: for every model, window, overlap and mix of tokens and escapes.
      The loop stops after exactly the encoder's symbols; a cut payload runs out of input and an extended one is
      refused. */
  lemma CompressionIsLossless(c: Settings, t: Tokenizer, input: seq<byte>)
    requires ValidLayout(c.model) && Sound(t, c.model.vocab) && Compress(c, t, input).Ok?
    ensures var payload := Compress(c, t, input).value;
            && Decompress(c, t, payload, |input|) == Ok(input)
            && DecodeCanonical(c, t, payload, |input|) ==
               Ok(Decoded(input, CodecSymbols(t, input, c.model.vocab).value))
            && (forall cut :: 0 <= cut < |payload| ==>
                  Decompress(c, t, payload[..cut], |input|) == Err(Coding(UnexpectedEof)))
            && (forall longer :: payload < longer ==> Decompress(c, t, longer, |input|) == Err(NotCanonical))
  {
    hide ValidLayout, Sound, SlotsFor, Emitted, DecodeCanonical, DecodeTo, Reaches, StartUp, CodecSymbols;
    EveryByteStringIsEncodable(t, c.model.vocab, input);
    var symbols := CodecSymbols(t, input, c.model.vocab).value;
    EncodedIsUsable(c, symbols);
    DecodeToReaches(c, t, [], symbols, input);
    var payload := Compress(c, t, input).value;
    PayloadFollows(c, t, symbols, |input|, input, payload);
    assert input[..|input|] == input;
    forall cut | 0 <= cut < |payload|
      ensures Decompress(c, t, payload[..cut], |input|) == Err(Coding(UnexpectedEof))
    {
      PayloadFollows(c, t, symbols, |input|, input, payload[..cut]);
    }
    forall longer | payload < longer
      ensures Decompress(c, t, longer, |input|) == Err(NotCanonical)
    {
      PayloadFollows(c, t, symbols, |input|, input, longer);
    }
  }

  lemma EncodedIsUsable(c: Settings, symbols: seq<nat>)
    requires ValidLayout(c.model) && EncodeSymbols(c, symbols).Ok?
    ensures Usable(c) && SlotsFor(c, [], symbols).Ok?
  {
  }

  /** Inputs of the same length never share a payload. */
  lemma CompressionIsInjective(c: Settings, t: Tokenizer, a: seq<byte>, b: seq<byte>)
    requires ValidLayout(c.model) && Sound(t, c.model.vocab)
    requires Compress(c, t, a).Ok? && Compress(c, t, a) == Compress(c, t, b) && |a| == |b|
    ensures a == b
  {
    CompressionIsLossless(c, t, a);
    CompressionIsLossless(c, t, b);
  }

  /** A payload is the compressor's own exactly when it decodes to the compressor's symbols. */
  lemma CompressedIffDecodedAs(c: Settings, t: Tokenizer, input: seq<byte>, payload: seq<byte>)
    requires ValidLayout(c.model) && Sound(t, c.model.vocab)
    ensures CodecSymbols(t, input, c.model.vocab).Ok?
    ensures Compress(c, t, input) == Ok(payload) <==>
            DecodeCanonical(c, t, payload, |input|) == Ok(Decoded(input, CodecSymbols(t, input, c.model.vocab).value))
  {
    hide ValidLayout, Sound, DecodeCanonical, DecodeTo, Reaches, CodecSymbols, EncodeSymbols;
    EveryByteStringIsEncodable(t, c.model.vocab, input);
    if Compress(c, t, input) == Ok(payload) {
      CompressionIsLossless(c, t, input);
    }
    var d := Decoded(input, CodecSymbols(t, input, c.model.vocab).value);
    if DecodeCanonical(c, t, payload, |input|) == Ok(d) {
      DecodeIffEncoded(c, t, payload, |input|, d);
    }
  }

  /** A byte that has a token of its own is never escaped. */
  lemma CoveredByteIsTokens(t: Tokenizer, vocabLen: nat, b: byte)
    requires Sound(t, vocabLen) && b in BytesOf(t)
    ensures CodecSymbols(t, [b], vocabLen).Ok?
    ensures CodecSymbols(t, [b], vocabLen).value != [vocabLen + b]
  {
    hide Sound, Tokenize;
    EveryByteStringIsEncodable(t, vocabLen, [b]);
    assert RunLength(t, [b]) == 1;
    assert [b][..1] == [b] && [b][1..] == [];
    CoveredRunSpells(t, vocabLen, [b]);
    var tokens := Tokenize(t, [b]).value;
    assert SymbolStream(t, [b]) == Ok(AsSymbols(tokens) + []);
    assert tokens != [];
    assert Sendable(t, vocabLen, tokens[0]);
  }

  /** Decompression also accepts encodings that the compressor never makes: a byte with a token of its own, escaped. */
  lemma EscapedTokenIsAccepted(c: Settings, t: Tokenizer, b: byte, payload: seq<byte>)
    requires ValidLayout(c.model) && Sound(t, c.model.vocab) && c.escapes && b in BytesOf(t)
    requires EncodeSymbols(c, [c.model.vocab + b]) == Ok(payload)
    ensures Decompress(c, t, payload, 1) == Ok([b])
    ensures forall input :: |input| == 1 ==> Compress(c, t, input) != Ok(payload)
  {
    hide ValidLayout, Sound, DecodeCanonical, EncodeSymbols, Compress;
    var d := Decoded([b], [c.model.vocab + b]);
    assert Piece(c, t, c.model.vocab + b) == Ok([b]);
    assert Reaches(c, t, d.symbols[1..], 0, d.bytes[1..]);
    DecodeIffEncoded(c, t, payload, 1, d);
    assert d.bytes[..1] == [b];
    CoveredByteIsTokens(t, c.model.vocab, b);
    forall input | |input| == 1
      ensures Compress(c, t, input) != Ok(payload)
    {
      CompressedIffDecodedAs(c, t, input, payload);
    }
  }

  // ----- every built tokenizer -----

  /** A tokenizer one of the constructors makes of a vocabulary. */
  ghost predicate Built(t: Tokenizer, tokens: seq<string>, merges: seq<string>, scores: Option<seq<F32>>,
                        mask: Option<seq<bool>>)
  {
    match t
    case Fallback(f) => Complete(tokens) && IsFallback(f, tokens, mask)
    case Pairs(b) => BpeBuildable(tokens, merges, mask) && IsBpe(b, tokens, merges, mask)
    case Munch(s) =>
      && GoodScores(scores, tokens) && Complete(tokens) && |tokens| <= MAX_TOKENS
      && IsSentencePiece(s, tokens, scores, mask)
  }

  lemma BuiltIsSound(t: Tokenizer, tokens: seq<string>, merges: seq<string>, scores: Option<seq<F32>>,
                     mask: Option<seq<bool>>)
    requires Built(t, tokens, merges, scores, mask)
    ensures Sound(t, |tokens|) && Capped(t)
  {
    hide Complete, IsFallback, BpeBuildable, IsBpe, Sound;
    match t
    case Fallback(f) => FallbackIsSound(f, tokens, mask);
    case Pairs(b) => BpeIsSound(b, tokens, merges, mask);
    case Munch(s) => SentencePieceIsSound(s, tokens, scores, mask);
  }

  /** For every tokenizer a constructor has built from a vocabulary of the model's size, as loading checks: whatever
      compresses is restored. */
  lemma BuiltTokenizersAreLossless(c: Settings, t: Tokenizer, tokens: seq<string>, merges: seq<string>,
                                   scores: Option<seq<F32>>, mask: Option<seq<bool>>, input: seq<byte>)
    requires ValidLayout(c.model) && Built(t, tokens, merges, scores, mask) && |tokens| == c.model.vocab
    ensures CodecSymbols(t, input, c.model.vocab).Ok?
    ensures Compress(c, t, input).Ok? ==>
              var payload := Compress(c, t, input).value;
              && Decompress(c, t, payload, |input|) == Ok(input)
              && DecodeCanonical(c, t, payload, |input|) ==
                 Ok(Decoded(input, CodecSymbols(t, input, c.model.vocab).value))
  {
    hide ValidLayout, Sound, Built, Compress, Decompress, DecodeCanonical, DecodeTo, CodecSymbols;
    BuiltIsSound(t, tokens, merges, scores, mask);
    EveryByteStringIsEncodable(t, c.model.vocab, input);
    if Compress(c, t, input).Ok? {
      CompressionIsLossless(c, t, input);
    }
  }
}
