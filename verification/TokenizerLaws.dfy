/** What tokenizing gives, by where it cuts the input and what it puts for each part. */
module TokenizerLaws {
  import opened Bits
  import opened Outcomes
  import opened Bpe
  import opened Vocabularies
  import opened Tokenizers

  // ----- merging -----

  /** Byte-pair encoding: every byte has a token, and these merge to the output. */
  lemma PairsIff(b: ByteBpe, input: seq<byte>, out: seq<Token>)
    ensures Tokenize(Pairs(b), input) == Ok(out) <==>
            exists ids: seq<Token> ::
              && |ids| == |input|
              && (forall i :: 0 <= i < |input| ==> input[i] in b.byteToToken && ids[i] == b.byteToToken[input[i]])
              && MergesTo(b.ranks, ids, out)
  {
    hide RankScan, MergesTo, ByteTokens;
    var bytes := ByteTokens(b.byteToToken, input);
    if bytes.Ok? {
      ScanMergesTo(b.ranks, bytes.value);
    }
    forall ids: seq<Token> |
      && |ids| == |input|
      && (forall i :: 0 <= i < |input| ==> input[i] in b.byteToToken && ids[i] == b.byteToToken[input[i]])
      && MergesTo(b.ranks, ids, out)
      ensures bytes == Ok(ids) && out == RankScan(b.ranks, ids)
    {
      assert Tokenizable(b.byteToToken, input);
      assert bytes.Ok? && bytes.value == ids;
      MergesToOne(b.ranks, ids, out);
    }
  }

  /** The first byte without a token is the error. */
  lemma {:induction false} MissingByte(byteToToken: map<byte, Token>, input: seq<byte>, i: nat)
    requires i < |input| && input[i] !in byteToToken && forall j :: 0 <= j < i ==> input[j] in byteToToken
    ensures ByteTokens(byteToToken, input) == Err(MissingByteFallback(input[i]))
    decreases i
  {
    if i > 0 {
      MissingByte(byteToToken, input[1..], i - 1);
    }
  }

  // ----- longest match -----

  /** Where an input is cut from position p on. */
  ghost predicate AreCuts(cuts: seq<nat>, p: nat, n: nat) {
    cuts != [] && cuts[0] == p && cuts[|cuts| - 1] == n
  }

  /** The part from a to b is the longest piece there is at a, or else one byte with a token of its own. */
  ghost predicate IsLongest(t: SentencePiece, input: seq<byte>, a: nat, b: nat, token: Token) {
    && a < b <= |input|
    && (forall e :: b < e <= |input| ==> input[a..e] !in t.pieces)
    && if input[a..b] in t.pieces then token == t.pieces[input[a..b]].0
       else b == a + 1 && input[a] in t.fallback.byteToToken && token == t.fallback.byteToToken[input[a]]
  }

  ghost predicate IsMunch(t: SentencePiece, input: seq<byte>, p: nat, cuts: seq<nat>, out: seq<Token>) {
    && AreCuts(cuts, p, |input|) && |out| == |cuts| - 1
    && forall i :: 0 <= i < |out| ==> IsLongest(t, input, cuts[i], cuts[i + 1], out[i])
  }

  /** Whether an input begins with a piece up to b, or none, decides the next token. */
  lemma NextMunch(t: SentencePiece, input: seq<byte>, p: nat)
    requires p < |input|
    ensures var len := LongestPiece(t.pieces, input[p..], |input| - p);
            if len == 0 && input[p] !in t.fallback.byteToToken then
              && MaximalMunch(t, input[p..]) == Err(MissingByteFallback(input[p]))
              && forall b, token :: !IsLongest(t, input, p, b, token)
            else
              var b := p + if len > 0 then len else 1;
              var token := if len > 0 then t.pieces[input[p..][..len]].0 else t.fallback.byteToToken[input[p]];
              && b <= |input| && IsLongest(t, input, p, b, token)
              && MaximalMunch(t, input[p..]) == Prefixed([token], MaximalMunch(t, input[b..]))
              && forall b', token' :: IsLongest(t, input, p, b', token') ==> b' == b && token' == token
  {
    hide MaximalMunch, LongestPiece, Prefixed;
    var s, len := input[p..], LongestPiece(t.pieces, input[p..], |input| - p);
    MunchUnfolds(t, s);
    forall e | p < e <= |input|
      ensures input[p..e] == s[..e - p]
    {
    }
    if len > 0 {
      assert s[len..] == input[p + len..];
    } else {
      assert s[1..] == input[p + 1..];
    }
  }

  lemma LongestIsProper(t: SentencePiece, input: seq<byte>, a: nat, b: nat, token: Token)
    requires IsLongest(t, input, a, b, token)
    ensures a < b <= |input|
  {
  }

  lemma NothingLeft(t: SentencePiece, input: seq<byte>)
    ensures MaximalMunch(t, input[|input|..]) == Ok([])
  {
  }

  lemma {:induction false} MunchToCuts(t: SentencePiece, input: seq<byte>, p: nat) returns (cuts: seq<nat>)
    requires p <= |input| && MaximalMunch(t, input[p..]).Ok?
    ensures IsMunch(t, input, p, cuts, MaximalMunch(t, input[p..]).value)
    decreases |input| - p
  {
    hide MaximalMunch, LongestPiece, IsLongest;
    if p == |input| {
      NothingLeft(t, input);
      cuts := [p];
    } else {
      NextMunch(t, input, p);
      var len := LongestPiece(t.pieces, input[p..], |input| - p);
      var b := p + if len > 0 then len else 1;
      var token := if len > 0 then t.pieces[input[p..][..len]].0 else t.fallback.byteToToken[input[p]];
      var rest := MunchToCuts(t, input, b);
      cuts := [p] + rest;
      var (out, more) := (MaximalMunch(t, input[p..]).value, MaximalMunch(t, input[b..]).value);
      assert out == [token] + more;
      forall i | 0 <= i < |out|
        ensures IsLongest(t, input, cuts[i], cuts[i + 1], out[i])
      {
        assert i > 0 ==> cuts[i] == rest[i - 1] && cuts[i + 1] == rest[i] && out[i] == more[i - 1];
      }
    }
  }

  lemma {:induction false} CutsToMunch(t: SentencePiece, input: seq<byte>, p: nat, cuts: seq<nat>, out: seq<Token>)
    requires p <= |input| && IsMunch(t, input, p, cuts, out)
    ensures MaximalMunch(t, input[p..]) == Ok(out)
    decreases |cuts|
  {
    hide MaximalMunch, LongestPiece, IsLongest;
    if |cuts| == 1 {
      NothingLeft(t, input);
      assert out == [];
    } else {
      var b := cuts[1];
      assert IsLongest(t, input, cuts[0], cuts[1], out[0]);
      LongestIsProper(t, input, cuts[0], cuts[1], out[0]);
      NextMunch(t, input, p);
      var (rest, more) := (cuts[1..], out[1..]);
      forall i | 0 <= i < |more|
        ensures IsLongest(t, input, rest[i], rest[i + 1], more[i])
      {
        assert IsLongest(t, input, cuts[i + 1], cuts[i + 2], out[i + 1]);
      }
      CutsToMunch(t, input, b, rest, more);
      assert out == [out[0]] + more;
    }
  }

  /** SentencePiece: cut by cut the longest piece, or a byte of its own. */
  lemma MunchIff(t: SentencePiece, input: seq<byte>, out: seq<Token>)
    ensures Tokenize(Munch(t), input) == Ok(out) <==> exists cuts :: IsMunch(t, input, 0, cuts, out)
  {
    hide MaximalMunch, IsMunch;
    assert input[0..] == input;
    if MaximalMunch(t, input) == Ok(out) {
      var cuts := MunchToCuts(t, input, 0);
    }
    forall cuts | IsMunch(t, input, 0, cuts, out)
      ensures MaximalMunch(t, input) == Ok(out)
    {
      CutsToMunch(t, input, 0, cuts, out);
    }
  }

  // ----- symbols of the codec -----

  /** The part from a to b is one byte without a token, whose symbol comes after the vocabulary, or a longest run of
      bytes with tokens, tokenized as a whole. */
  ghost predicate IsPart(t: Tokenizer, input: seq<byte>, vocabLen: nat, a: nat, b: nat, symbols: seq<nat>) {
    && a < b <= |input|
    && if input[a] !in BytesOf(t) then b == a + 1 && symbols == [vocabLen + input[a]]
       else
         && (forall i :: a <= i < b ==> input[i] in BytesOf(t)) && (b < |input| ==> input[b] !in BytesOf(t))
         && Tokenize(t, input[a..b]) == Ok(symbols)
  }

  lemma PartIsProper(t: Tokenizer, input: seq<byte>, vocabLen: nat, a: nat, b: nat, symbols: seq<nat>)
    requires IsPart(t, input, vocabLen, a, b, symbols)
    ensures a < b <= |input|
  {
  }

  /** The symbols of all parts, one after another. */
  ghost predicate IsParted(t: Tokenizer, input: seq<byte>, vocabLen: nat, p: nat, cuts: seq<nat>,
                           parts: seq<seq<nat>>) {
    && AreCuts(cuts, p, |input|) && |parts| == |cuts| - 1
    && forall i :: 0 <= i < |parts| ==> IsPart(t, input, vocabLen, cuts[i], cuts[i + 1], parts[i])
  }

  function Joined(parts: seq<seq<nat>>): seq<nat> {
    if parts == [] then [] else parts[0] + Joined(parts[1..])
  }

  lemma NumbersJoin(a: seq<CodecSymbol>, b: seq<CodecSymbol>, vocabLen: nat)
    ensures Numbers(a + b, vocabLen) == Numbers(a, vocabLen) + Numbers(b, vocabLen)
  {
  }

  lemma TokenNumbers(tokens: seq<Token>, vocabLen: nat)
    ensures Numbers(AsSymbols(tokens), vocabLen) == tokens
  {
  }

  lemma NextPart(t: Tokenizer, input: seq<byte>, vocabLen: nat, p: nat)
    requires p < |input|
    ensures var n := RunLength(t, input[p..]);
            var b := p + if n == 0 then 1 else n;
            && b <= |input|
            && (forall b', symbols :: IsPart(t, input, vocabLen, p, b', symbols) ==> b' == b)
            && (forall symbols :: IsPart(t, input, vocabLen, p, b, symbols) ==>
                  CodecSymbols(t, input[p..], vocabLen) ==
                  Prefixed(symbols, CodecSymbols(t, input[b..], vocabLen)))
            && (CodecSymbols(t, input[p..], vocabLen).Ok? ==>
                  exists symbols :: IsPart(t, input, vocabLen, p, b, symbols))
  {
    hide SymbolStream, Tokenize, RunLength, Numbers, AsSymbols, BytesOf;
    var s, n := input[p..], RunLength(t, input[p..]);
    StreamUnfolds(t, s);
    var b := p + if n == 0 then 1 else n;
    assert s[b - p..] == input[b..] && s[..b - p] == input[p..b];
    RunEnds(t, input, p, n);
    var rest := SymbolStream(t, input[b..]);
    if n == 0 {
      if rest.Ok? {
        NumbersJoin([ByteEscape(s[0])], rest.value, vocabLen);
      }
      EscapeNumber(s[0], vocabLen);
      assert IsPart(t, input, vocabLen, p, b, [vocabLen + input[p]]);
    } else {
      var tokens := Tokenize(t, input[p..b]);
      if tokens.Ok? {
        TokenNumbers(tokens.value, vocabLen);
        if rest.Ok? {
          NumbersJoin(AsSymbols(tokens.value), rest.value, vocabLen);
        }
        assert IsPart(t, input, vocabLen, p, b, tokens.value);
      }
    }
  }

  lemma EscapeNumber(b: byte, vocabLen: nat)
    ensures Numbers([ByteEscape(b)], vocabLen) == [vocabLen + b]
  {
  }

  lemma RunEnds(t: Tokenizer, input: seq<byte>, p: nat, n: nat)
    requires p < |input| && n == RunLength(t, input[p..])
    ensures p + n <= |input| && (n == 0 <==> input[p] !in BytesOf(t))
    ensures forall i :: p <= i < p + n ==> input[i] in BytesOf(t)
    ensures p + n < |input| ==> input[p + n] !in BytesOf(t)
  {
    hide RunLength, BytesOf;
    var s := input[p..];
    RunIsCovered(t, s);
    forall i | p <= i < p + n
      ensures input[i] in BytesOf(t)
    {
      assert s[..n][i - p] == input[i];
    }
  }

  lemma RunIsCovered(t: Tokenizer, s: seq<byte>)
    requires s != []
    ensures RunLength(t, s) == 0 <==> s[0] !in BytesOf(t)
  {
  }

  lemma NoSymbols(t: Tokenizer, input: seq<byte>, vocabLen: nat)
    ensures CodecSymbols(t, input[|input|..], vocabLen) == Ok([])
  {
  }

  lemma {:induction false} SymbolsToParts(t: Tokenizer, input: seq<byte>, vocabLen: nat, p: nat)
    returns (cuts: seq<nat>, parts: seq<seq<nat>>)
    requires p <= |input| && CodecSymbols(t, input[p..], vocabLen).Ok?
    ensures IsParted(t, input, vocabLen, p, cuts, parts)
    ensures CodecSymbols(t, input[p..], vocabLen) == Ok(Joined(parts))
    decreases |input| - p
  {
    hide CodecSymbols, IsPart, RunLength;
    if p == |input| {
      NoSymbols(t, input, vocabLen);
      cuts, parts := [p], [];
    } else {
      NextPart(t, input, vocabLen, p);
      var n := RunLength(t, input[p..]);
      var b := p + if n == 0 then 1 else n;
      var symbols :| IsPart(t, input, vocabLen, p, b, symbols);
      var cuts', parts' := SymbolsToParts(t, input, vocabLen, b);
      cuts, parts := [p] + cuts', [symbols] + parts';
      forall i | 0 <= i < |parts|
        ensures IsPart(t, input, vocabLen, cuts[i], cuts[i + 1], parts[i])
      {
        assert i > 0 ==> cuts[i] == cuts'[i - 1] && cuts[i + 1] == cuts'[i] && parts[i] == parts'[i - 1];
      }
    }
  }

  lemma {:induction false} PartsToSymbols(t: Tokenizer, input: seq<byte>, vocabLen: nat, p: nat, cuts: seq<nat>,
                                          parts: seq<seq<nat>>)
    requires p <= |input| && IsParted(t, input, vocabLen, p, cuts, parts)
    ensures CodecSymbols(t, input[p..], vocabLen) == Ok(Joined(parts))
    decreases |cuts|
  {
    hide CodecSymbols, IsPart, RunLength;
    if |cuts| == 1 {
      NoSymbols(t, input, vocabLen);
    } else {
      assert IsPart(t, input, vocabLen, cuts[0], cuts[1], parts[0]);
      PartIsProper(t, input, vocabLen, cuts[0], cuts[1], parts[0]);
      NextPart(t, input, vocabLen, p);
      var (rest, more) := (cuts[1..], parts[1..]);
      forall i | 0 <= i < |more|
        ensures IsPart(t, input, vocabLen, rest[i], rest[i + 1], more[i])
      {
        assert IsPart(t, input, vocabLen, cuts[i + 1], cuts[i + 2], parts[i + 1]);
      }
      PartsToSymbols(t, input, vocabLen, cuts[1], rest, more);
    }
  }

  /** The symbols of an input are those of its parts. */
  lemma SymbolsIff(t: Tokenizer, input: seq<byte>, vocabLen: nat, symbols: seq<nat>)
    ensures CodecSymbols(t, input, vocabLen) == Ok(symbols) <==>
            exists cuts, parts :: IsParted(t, input, vocabLen, 0, cuts, parts) && symbols == Joined(parts)
  {
    hide CodecSymbols, IsParted;
    assert input[0..] == input;
    if CodecSymbols(t, input, vocabLen) == Ok(symbols) {
      var cuts, parts := SymbolsToParts(t, input, vocabLen, 0);
    }
    forall cuts, parts | IsParted(t, input, vocabLen, 0, cuts, parts)
      ensures CodecSymbols(t, input, vocabLen) == Ok(Joined(parts))
    {
      PartsToSymbols(t, input, vocabLen, 0, cuts, parts);
    }
  }

  /** A symbol below the vocabulary's length stands for its token's bytes, one of the 256 behind it for that byte, and
      no other for anything. */
  lemma SymbolBytes(t: Tokenizer, symbol: nat, vocabLen: nat, bytes: seq<byte>)
    requires vocabLen <= 0x1_0000_0000
    ensures DecodeSymbol(t, symbol, vocabLen) == Ok(bytes) <==>
            if symbol < vocabLen then
              match t
              case Fallback(f) => symbol in f.tokenToByte && bytes == [f.tokenToByte[symbol]]
              case Pairs(b) => symbol in b.tokenToBytes && bytes == b.tokenToBytes[symbol]
              case Munch(s) => symbol in s.tokenToBytes && bytes == s.tokenToBytes[symbol]
            else |bytes| == 1 && symbol == vocabLen + bytes[0]
  {
    if symbol < vocabLen {
      OneToken(t, symbol);
    } else if |bytes| == 1 {
      assert bytes == [bytes[0]];
    }
  }

  lemma OneToken(t: Tokenizer, token: Token)
    ensures Detokenize(t, [token]) ==
            if TokenBytes(t, token).Some? then Ok(TokenBytes(t, token).value) else Err(InvalidToken(token))
  {
    assert [token][1..] == [];
    if TokenBytes(t, token).Some? {
      assert TokenBytes(t, token).value + [] == TokenBytes(t, token).value;
    }
  }
}
