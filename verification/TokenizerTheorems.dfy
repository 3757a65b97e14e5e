/** Built tokenizers conserve bytes: whatever they emit decodes to what they were given. */
module TokenizerTheorems {
  import opened Bits
  import opened Outcomes
  import opened Floats
  import opened Bpe
  import opened Pieces
  import opened Vocabularies
  import opened Tokenizers

  /** A token the codec can send: inside the vocabulary, and standing for at least one byte. */
  ghost predicate Sendable(t: Tokenizer, vocabLen: nat, token: Token) {
    && token < vocabLen && token < MAX_TOKENS
    && TokenBytes(t, token).Some? && TokenBytes(t, token).value != []
  }

  /** What the constructors establish. */
  ghost predicate Sound(t: Tokenizer, vocabLen: nat) {
    && (forall b :: b in BytesOf(t) ==>
          Sendable(t, vocabLen, BytesOf(t)[b]) && TokenBytes(t, BytesOf(t)[b]) == Some([b]))
    && (t.Pairs? ==>
          forall p :: p in t.bpe.ranks ==>
            && Sendable(t, vocabLen, p.0) && Sendable(t, vocabLen, p.1) && Sendable(t, vocabLen, t.bpe.ranks[p].1)
            && TokenBytes(t, t.bpe.ranks[p].1).value == TokenBytes(t, p.0).value + TokenBytes(t, p.1).value)
    && (t.Munch? ==>
          forall piece :: piece in t.sp.pieces ==>
            && Sendable(t, vocabLen, t.sp.pieces[piece].0)
            && TokenBytes(t, t.sp.pieces[piece].0) == Some(piece)
            && |piece| <= t.sp.maxPieceLen)
  }

  lemma FallbackIsSound(f: ByteFallback, tokens: seq<string>, mask: Option<seq<bool>>)
    requires Complete(tokens) && IsFallback(f, tokens, mask)
    ensures Sound(Fallback(f), |tokens|)
  {
    var t := Fallback(f);
    forall b | b in f.byteToToken
      ensures Sendable(t, |tokens|, f.byteToToken[b]) && TokenBytes(t, f.byteToToken[b]) == Some([b])
    {
      assert Spells(tokens, f.byteToToken[b], b);
    }
  }

  lemma HeldPiece(tokenToBytes: map<Token, seq<byte>>, tokens: seq<string>, mask: Option<seq<bool>>, i: nat,
                  piece: seq<byte>)
    requires HoldsPieces(tokenToBytes, tokens, |tokens|) && Emits(tokens, mask, i, piece)
    ensures i < |tokens| && i in tokenToBytes && tokenToBytes[i] == piece
  {
  }

  lemma BpeIsSound(b: ByteBpe, tokens: seq<string>, merges: seq<string>, mask: Option<seq<bool>>)
    requires BpeBuildable(tokens, merges, mask) && IsBpe(b, tokens, merges, mask)
    ensures Sound(Pairs(b), |tokens|)
  {
    hide PieceBytes, Emits, HoldsPieces, Distinct, GoodMerges, RuleOf;
    var t := Pairs(b);
    forall x | x in b.byteToToken
      ensures Sendable(t, |tokens|, b.byteToToken[x]) && TokenBytes(t, b.byteToToken[x]) == Some([x])
    {
      assert Emits(tokens, mask, b.byteToToken[x], [x]);
      HeldPiece(b.tokenToBytes, tokens, mask, b.byteToToken[x], [x]);
    }
    var index :| IsIndex(index, tokens, mask, |tokens|) && AreRanks(b.ranks, index, merges, |merges|);
    forall p | p in b.ranks
      ensures Sendable(t, |tokens|, p.0) && Sendable(t, |tokens|, p.1) && Sendable(t, |tokens|, b.ranks[p].1)
      ensures TokenBytes(t, b.ranks[p].1).value == TokenBytes(t, p.0).value + TokenBytes(t, p.1).value
    {
      RankIsSound(b, index, tokens, mask, merges[b.ranks[p].0], p);
    }
  }

  /** A merge rule joins the bytes of its two tokens. */
  lemma RankIsSound(b: ByteBpe, index: map<seq<byte>, Token>, tokens: seq<string>, mask: Option<seq<bool>>,
                    merge: string, p: (Token, Token))
    requires |tokens| <= MAX_TOKENS && HoldsPieces(b.tokenToBytes, tokens, |tokens|)
    requires IsIndex(index, tokens, mask, |tokens|)
    requires p in b.ranks && RuleOf(index, merge) == Some((p.0, p.1, b.ranks[p].1))
    ensures var t := Pairs(b);
            && Sendable(t, |tokens|, p.0) && Sendable(t, |tokens|, p.1) && Sendable(t, |tokens|, b.ranks[p].1)
            && TokenBytes(t, b.ranks[p].1).value == TokenBytes(t, p.0).value + TokenBytes(t, p.1).value
  {
    hide PieceBytes, Emits, HoldsPieces;
    var (x, y) := ParseMerge(merge).value;
    var left, right := PieceBytes(x), PieceBytes(y);
    PieceNotEmpty(x);
    PieceNotEmpty(y);
    HeldPiece(b.tokenToBytes, tokens, mask, p.0, left);
    HeldPiece(b.tokenToBytes, tokens, mask, p.1, right);
    HeldPiece(b.tokenToBytes, tokens, mask, b.ranks[p].1, left + right);
  }

  lemma PieceNotEmpty(x: string)
    requires x != ""
    ensures PieceBytes(x) != []
  {
  }

  lemma SentencePieceIsSound(s: SentencePiece, tokens: seq<string>, scores: Option<seq<F32>>, mask: Option<seq<bool>>)
    requires Complete(tokens) && |tokens| <= MAX_TOKENS && IsSentencePiece(s, tokens, scores, mask)
    ensures Sound(Munch(s), |tokens|)
  {
    hide PieceBytes, Emits, HoldsPieces, Wins, Complete, Spells;
    var t := Munch(s);
    forall x | x in s.fallback.byteToToken
      ensures Sendable(t, |tokens|, s.fallback.byteToToken[x]) && TokenBytes(t, s.fallback.byteToToken[x]) == Some([x])
    {
      SpelledPiece(s.tokenToBytes, tokens, s.fallback.byteToToken[x], x);
    }
    forall piece | piece in s.pieces
      ensures Sendable(t, |tokens|, s.pieces[piece].0) && TokenBytes(t, s.pieces[piece].0) == Some(piece)
    {
      WinnerEmits(tokens, scores, mask, piece, s.pieces[piece].0);
      HeldPiece(s.tokenToBytes, tokens, mask, s.pieces[piece].0, piece);
    }
  }

  lemma WinnerEmits(tokens: seq<string>, scores: Option<seq<F32>>, mask: Option<seq<bool>>, piece: seq<byte>, i: nat)
    requires Wins(tokens, scores, mask, |tokens|, piece, i)
    ensures Emits(tokens, mask, i, piece)
  {
  }

  lemma SpelledPiece(tokenToBytes: map<Token, seq<byte>>, tokens: seq<string>, i: nat, b: byte)
    requires Spells(tokens, i, b) && HoldsPieces(tokenToBytes, tokens, |tokens|)
    ensures i < |tokens| && i in tokenToBytes && tokenToBytes[i] == [b]
  {
  }

  // ----- conservation of bytes -----

  ghost predicate AllSendable(t: Tokenizer, vocabLen: nat, tokens: seq<Token>) {
    forall i :: 0 <= i < |tokens| ==> Sendable(t, vocabLen, tokens[i])
  }

  /** The tokens are sendable and together stand for the given bytes. */
  ghost predicate Spell(t: Tokenizer, vocabLen: nat, tokens: seq<Token>, bytes: seq<byte>) {
    AllSendable(t, vocabLen, tokens) && Detokenize(t, tokens) == Ok(bytes)
  }

  lemma {:induction false} DetokenizeParts(t: Tokenizer, a: seq<Token>, b: seq<Token>)
    requires Detokenize(t, a).Ok? && Detokenize(t, b).Ok?
    ensures Detokenize(t, a + b) == Ok(Detokenize(t, a).value + Detokenize(t, b).value)
    decreases |a|
  {
    hide TokenBytes;
    if a == [] {
      assert a + b == b && [] + Detokenize(t, b).value == Detokenize(t, b).value;
    } else {
      assert (a + b)[1..] == a[1..] + b;
      DetokenizeParts(t, a[1..], b);
      var first, x, y := TokenBytes(t, a[0]).value, Detokenize(t, a[1..]).value, Detokenize(t, b).value;
      assert first + (x + y) == (first + x) + y;
    }
  }

  lemma {:induction false} SendableDetokenizes(t: Tokenizer, vocabLen: nat, tokens: seq<Token>)
    requires AllSendable(t, vocabLen, tokens)
    ensures Detokenize(t, tokens).Ok?
    decreases |tokens|
  {
    if tokens != [] {
      assert Sendable(t, vocabLen, tokens[0]);
      SendableDetokenizes(t, vocabLen, tokens[1..]);
    }
  }

  lemma DetokenizeOne(t: Tokenizer, token: Token)
    requires TokenBytes(t, token).Some?
    ensures Detokenize(t, [token]) == Ok(TokenBytes(t, token).value)
  {
    hide TokenBytes;
    assert [token][1..] == [] && Detokenize(t, []) == Ok([]);
    var bytes := TokenBytes(t, token).value;
    assert bytes + [] == bytes;
    assert Detokenize(t, [token]) == Ok(bytes + []);
  }

  lemma SpellNothing(t: Tokenizer, vocabLen: nat)
    ensures Spell(t, vocabLen, [], [])
  {
  }

  lemma SpellCons(t: Tokenizer, vocabLen: nat, token: Token, tokens: seq<Token>, bytes: seq<byte>)
    requires Sendable(t, vocabLen, token) && Spell(t, vocabLen, tokens, bytes)
    ensures Spell(t, vocabLen, [token] + tokens, TokenBytes(t, token).value + bytes)
  {
    hide TokenBytes;
    assert ([token] + tokens)[1..] == tokens;
  }

  lemma {:induction false} ByteTokensSpell(t: Tokenizer, vocabLen: nat, input: seq<byte>)
    requires Sound(t, vocabLen) && Tokenizable(BytesOf(t), input)
    ensures Spell(t, vocabLen, ByteTokens(BytesOf(t), input).value, input)
    decreases |input|
  {
    hide Spell, Sendable, TokenBytes, BytesOf;
    if input == [] {
      SpellNothing(t, vocabLen);
    } else {
      assert input[0] in BytesOf(t);
      ByteTokensSpell(t, vocabLen, input[1..]);
      SpellCons(t, vocabLen, BytesOf(t)[input[0]], ByteTokens(BytesOf(t), input[1..]).value, input[1..]);
      assert input == [input[0]] + input[1..];
    }
  }

  /** A merge replaces two tokens by one that stands for the same bytes. */
  lemma MergeSpells(t: Tokenizer, vocabLen: nat, tokens: seq<Token>, i: nat, bytes: seq<byte>)
    requires Sound(t, vocabLen) && t.Pairs? && Mergeable(t.bpe.ranks, tokens, i)
    requires Spell(t, vocabLen, tokens, bytes)
    ensures Spell(t, vocabLen, MergeAt(t.bpe.ranks, tokens, i), bytes)
  {
    hide TokenBytes;
    var p := (tokens[i], tokens[i + 1]);
    var m := t.bpe.ranks[p].1;
    var left, right := tokens[..i], tokens[i + 2..];
    assert Sendable(t, vocabLen, m) && Sendable(t, vocabLen, p.0) && Sendable(t, vocabLen, p.1);
    assert tokens == left + ([p.0] + ([p.1] + right));
    assert MergeAt(t.bpe.ranks, tokens, i) == left + ([m] + right);
    SendableDetokenizes(t, vocabLen, left);
    SendableDetokenizes(t, vocabLen, right);
    DetokenizeOne(t, m);
    DetokenizeOne(t, p.0);
    DetokenizeOne(t, p.1);
    DetokenizeParts(t, [p.1], right);
    DetokenizeParts(t, [p.0], [p.1] + right);
    DetokenizeParts(t, left, [p.0] + ([p.1] + right));
    DetokenizeParts(t, [m], right);
    DetokenizeParts(t, left, [m] + right);
    var x, y, z := TokenBytes(t, p.0).value, TokenBytes(t, p.1).value, Detokenize(t, right).value;
    assert x + (y + z) == (x + y) + z;
  }

  lemma {:induction false} RankScanSpells(t: Tokenizer, vocabLen: nat, tokens: seq<Token>, bytes: seq<byte>)
    requires Sound(t, vocabLen) && t.Pairs? && Spell(t, vocabLen, tokens, bytes)
    ensures Spell(t, vocabLen, RankScan(t.bpe.ranks, tokens), bytes)
    decreases |tokens|
  {
    hide Spell, Sound;
    var best := BestBefore(t.bpe.ranks, tokens, |tokens|);
    if best.Some? {
      MergeSpells(t, vocabLen, tokens, best.value, bytes);
      RankScanSpells(t, vocabLen, MergeAt(t.bpe.ranks, tokens, best.value), bytes);
    }
  }

  lemma {:induction false} MunchSpells(t: Tokenizer, vocabLen: nat, input: seq<byte>)
    requires Sound(t, vocabLen) && t.Munch? && Tokenizable(BytesOf(t), input)
    ensures MaximalMunch(t.sp, input).Ok? && Spell(t, vocabLen, MaximalMunch(t.sp, input).value, input)
    decreases |input|
  {
    hide Spell, Sendable, TokenBytes, Sound, MaximalMunch, LongestPiece, Tokenizable;
    if input == [] {
      SpellNothing(t, vocabLen);
      NothingToMunch(t.sp, input);
    } else {
      var head := MunchHead(t, vocabLen, input);
      var (n, id) := head;
      MunchSpells(t, vocabLen, input[n..]);
      SpellCons(t, vocabLen, id, MaximalMunch(t.sp, input[n..]).value, input[n..]);
      assert input[..n] + input[n..] == input;
    }
  }

  /** The first token of maximal munch stands for the bytes it takes. */
  lemma MunchHead(t: Tokenizer, vocabLen: nat, input: seq<byte>) returns (head: (nat, Token))
    requires Sound(t, vocabLen) && t.Munch? && Tokenizable(BytesOf(t), input) && input != []
    ensures 0 < head.0 <= |input| && Tokenizable(BytesOf(t), input[head.0..])
    ensures Sendable(t, vocabLen, head.1) && TokenBytes(t, head.1) == Some(input[..head.0])
    ensures var rest := MaximalMunch(t.sp, input[head.0..]);
            MaximalMunch(t.sp, input) == if rest.Err? then rest else Ok([head.1] + rest.value)
  {
    hide Sendable, TokenBytes;
    var len := LongestPiece(t.sp.pieces, input, |input|);
    assert input[0] in BytesOf(t);
    if len > 0 {
      head := (len, t.sp.pieces[input[..len]].0);
    } else {
      assert input[..1] == [input[0]];
      head := (1, t.sp.fallback.byteToToken[input[0]]);
    }
    forall i | 0 <= i < |input| - head.0
      ensures input[head.0..][i] in BytesOf(t)
    {
      assert input[head.0 + i] in BytesOf(t);
    }
  }

  /** Inside a covered run tokenizing never fails, and the tokens stand for exactly the run. */
  lemma CoveredRunSpells(t: Tokenizer, vocabLen: nat, input: seq<byte>)
    requires Sound(t, vocabLen) && Tokenizable(BytesOf(t), input)
    ensures Tokenize(t, input).Ok? && Spell(t, vocabLen, Tokenize(t, input).value, input)
  {
    hide Sound, Spell;
    if t.Munch? {
      MunchSpells(t, vocabLen, input);
    } else {
      ByteTokensSpell(t, vocabLen, input);
      if t.Pairs? {
        RankScanSpells(t, vocabLen, ByteTokens(BytesOf(t), input).value, input);
      }
    }
  }

  // ----- every byte string is encodable -----

  /** The symbols decode one after another to the given bytes, each to at least one of them. */
  ghost predicate DecodeTo(t: Tokenizer, vocabLen: nat, symbols: seq<nat>, bytes: seq<byte>)
    decreases |symbols|
  {
    if symbols == [] then bytes == []
    else
      var piece := DecodeSymbol(t, symbols[0], vocabLen);
      && symbols[0] < vocabLen + 256
      && piece.Ok? && piece.value != [] && piece.value <= bytes
      && DecodeTo(t, vocabLen, symbols[1..], bytes[|piece.value|..])
  }

  lemma {:induction false} DecodeToParts(t: Tokenizer, vocabLen: nat, a: seq<nat>, x: seq<byte>, b: seq<nat>,
                                         y: seq<byte>)
    requires DecodeTo(t, vocabLen, a, x) && DecodeTo(t, vocabLen, b, y)
    ensures DecodeTo(t, vocabLen, a + b, x + y)
    decreases |a|
  {
    hide DecodeSymbol;
    if a == [] {
      assert a + b == b && x + y == y;
    } else {
      var piece := DecodeSymbol(t, a[0], vocabLen).value;
      DecodeToParts(t, vocabLen, a[1..], x[|piece|..], b, y);
      assert (a + b)[1..] == a[1..] + b;
      assert (x + y)[|piece|..] == x[|piece|..] + y;
    }
  }

  lemma {:induction false} SpelledDecodes(t: Tokenizer, vocabLen: nat, tokens: seq<Token>, bytes: seq<byte>)
    requires Spell(t, vocabLen, tokens, bytes)
    ensures DecodeTo(t, vocabLen, Numbers(AsSymbols(tokens), vocabLen), bytes)
    decreases |tokens|
  {
    hide TokenBytes;
    var numbers := Numbers(AsSymbols(tokens), vocabLen);
    if tokens != [] {
      assert Sendable(t, vocabLen, tokens[0]);
      DetokenizeOne(t, tokens[0]);
      var piece, rest := TokenBytes(t, tokens[0]).value, Detokenize(t, tokens[1..]).value;
      assert bytes == piece + rest && bytes[|piece|..] == rest;
      SpelledDecodes(t, vocabLen, tokens[1..], rest);
      assert numbers[1..] == Numbers(AsSymbols(tokens[1..]), vocabLen);
      assert numbers[0] == tokens[0];
    }
  }

  /** For every byte string the codec's symbols exist, stay below vocabLen + 256, and decode to that string. */
  lemma {:induction false} EveryByteStringIsEncodable(t: Tokenizer, vocabLen: nat, input: seq<byte>)
    requires Sound(t, vocabLen)
    ensures CodecSymbols(t, input, vocabLen).Ok?
    ensures DecodeTo(t, vocabLen, CodecSymbols(t, input, vocabLen).value, input)
    decreases |input|
  {
    hide Sound, Tokenize, DecodeTo, RunLength, SymbolStream, Numbers;
    if input == [] {
      NothingDecodes(t, vocabLen);
    } else {
      var n := RunLength(t, input);
      var m := if n == 0 then 1 else n;
      EveryByteStringIsEncodable(t, vocabLen, input[m..]);
      var head := HeadDecodes(t, vocabLen, input);
      var rest := SymbolStream(t, input[m..]).value;
      DecodeToParts(t, vocabLen, Numbers(head, vocabLen), input[..m], Numbers(rest, vocabLen), input[m..]);
      NumbersOfParts(head, rest, vocabLen);
      assert input[..m] + input[m..] == input;
    }
  }

  lemma NumbersOfParts(a: seq<CodecSymbol>, b: seq<CodecSymbol>, vocabLen: nat)
    ensures Numbers(a + b, vocabLen) == Numbers(a, vocabLen) + Numbers(b, vocabLen)
  {
  }

  lemma NothingDecodes(t: Tokenizer, vocabLen: nat)
    ensures DecodeTo(t, vocabLen, [], [])
    ensures CodecSymbols(t, [], vocabLen) == Ok([])
  {
  }

  /** The first escape or the tokens of the first run. */
  lemma HeadDecodes(t: Tokenizer, vocabLen: nat, input: seq<byte>) returns (head: seq<CodecSymbol>)
    requires Sound(t, vocabLen) && input != []
    ensures var n := RunLength(t, input);
            var m := if n == 0 then 1 else n;
            && DecodeTo(t, vocabLen, Numbers(head, vocabLen), input[..m])
            && SymbolStream(t, input) == Prefixed(head, SymbolStream(t, input[m..]))
  {
    hide Sound, Tokenize, DecodeTo;
    var n := RunLength(t, input);
    if n == 0 {
      head := [ByteEscape(input[0])];
      EscapeDecodes(t, vocabLen, input[0]);
      assert Numbers(head, vocabLen) == [vocabLen + input[0]];
      assert input[..1] == [input[0]];
    } else {
      CoveredRunSpells(t, vocabLen, input[..n]);
      SpelledDecodes(t, vocabLen, Tokenize(t, input[..n]).value, input[..n]);
      head := AsSymbols(Tokenize(t, input[..n]).value);
    }
  }

  lemma EscapeDecodes(t: Tokenizer, vocabLen: nat, b: byte)
    ensures DecodeTo(t, vocabLen, [vocabLen + b], [b])
  {
    assert DecodeSymbol(t, vocabLen + b, vocabLen) == Ok([b]);
    assert [vocabLen + b][1..] == [] && [b][1..] == [];
  }
}
