/** Tokenizing bytes, the escapes that make every byte string encodable, and the way back. */
module Tokenizers {
  import opened Bits
  import opened Outcomes
  import opened Floats
  import opened Bpe
  import opened Vocabularies

  datatype Tokenizer = Fallback(fallback: ByteFallback) | Pairs(bpe: ByteBpe) | Munch(sp: SentencePiece)

  datatype CodecSymbol = TokenSymbol(token: Token) | ByteEscape(b: byte)

  // ----- one token per byte -----

  function ByteTokens(byteToToken: map<byte, Token>, input: seq<byte>): (r: Result<seq<Token>, TokenError>)
    ensures r.Ok? <==> Tokenizable(byteToToken, input)
    ensures r.Ok? ==> |r.value| == |input| && forall i :: 0 <= i < |input| ==> r.value[i] == byteToToken[input[i]]
    decreases |input|
  {
    if input == [] then Ok([])
    else if input[0] !in byteToToken then Err(MissingByteFallback(input[0]))
    else
      var rest :- ByteTokens(byteToToken, input[1..]);
      Ok([byteToToken[input[0]]] + rest)
  }

  predicate Tokenizable(byteToToken: map<byte, Token>, input: seq<byte>) {
    forall i :: 0 <= i < |input| ==> input[i] in byteToToken
  }

  lemma {:induction false} ByteTokensSplit(byteToToken: map<byte, Token>, input: seq<byte>, i: nat)
    requires i < |input| && Tokenizable(byteToToken, input[..i])
    ensures input[i] in byteToToken ==>
              ByteTokens(byteToToken, input[..i + 1]) ==
              Ok(ByteTokens(byteToToken, input[..i]).value + [byteToToken[input[i]]])
    ensures input[i] !in byteToToken ==> ByteTokens(byteToToken, input) == Err(MissingByteFallback(input[i]))
    decreases i
  {
    if input[i] in byteToToken {
      assert Tokenizable(byteToToken, input[..i + 1]);
      assert ByteTokens(byteToToken, input[..i + 1]).value ==
             ByteTokens(byteToToken, input[..i]).value + [byteToToken[input[i]]];
    } else if i > 0 {
      assert input[..i][1..] == input[1..][..i - 1];
      assert input[0] == input[..i][0];
      ByteTokensSplit(byteToToken, input[1..], i - 1);
    }
  }

  method TokensOfBytes(byteToToken: map<byte, Token>, input: seq<byte>) returns (r: Result<seq<Token>, TokenError>)
    ensures r == ByteTokens(byteToToken, input)
  {
    var ids: seq<Token> := [];
    for i := 0 to |input|
      invariant Tokenizable(byteToToken, input[..i]) && ByteTokens(byteToToken, input[..i]) == Ok(ids)
    {
      ByteTokensSplit(byteToToken, input, i);
      if input[i] !in byteToToken {
        return Err(MissingByteFallback(input[i]));
      }
      ids := ids + [byteToToken[input[i]]];
    }
    assert input[..|input|] == input;
    r := Ok(ids);
  }

  // ----- longest match -----

  /** The length of the longest piece that starts the input, among lengths up to n; 0 if there is none. */
  function LongestPiece(pieces: map<seq<byte>, (Token, F32)>, input: seq<byte>, n: nat): (len: nat)
    requires n <= |input|
    ensures len <= n && (len > 0 ==> input[..len] in pieces)
    ensures forall k :: len < k <= n ==> input[..k] !in pieces
  {
    if n == 0 then 0
    else if input[..n] in pieces then n
    else LongestPiece(pieces, input, n - 1)
  }

  /** Maximal munch: the longest piece over the whole rest of the input, or else the byte's own token. */
  function MaximalMunch(t: SentencePiece, input: seq<byte>): Result<seq<Token>, TokenError>
    decreases |input|
  {
    if input == [] then Ok([])
    else
      var len := LongestPiece(t.pieces, input, |input|);
      if len > 0 then
        var rest :- MaximalMunch(t, input[len..]);
        Ok([t.pieces[input[..len]].0] + rest)
      else if input[0] !in t.fallback.byteToToken then Err(MissingByteFallback(input[0]))
      else
        var rest :- MaximalMunch(t, input[1..]);
        Ok([t.fallback.byteToToken[input[0]]] + rest)
  }

  /** A cap that no piece exceeds hides no match. */
  lemma {:induction false} CapHidesNothing(pieces: map<seq<byte>, (Token, F32)>, input: seq<byte>, cap: nat, n: nat)
    requires forall piece :: piece in pieces ==> |piece| <= cap
    requires n <= |input|
    ensures LongestPiece(pieces, input, n) == LongestPiece(pieces, input, if n <= cap then n else cap)
    decreases n
  {
    if n > cap {
      assert |input[..n]| == n;
      CapHidesNothing(pieces, input, cap, n - 1);
    }
  }

  /** The scan over candidate ends keeps the longest; its score and id comparisons never decide. */
  lemma NoPieceYet(pieces: map<seq<byte>, (Token, F32)>, input: seq<byte>)
    ensures LongestPiece(pieces, input, 0) == 0
  {
  }

  lemma LongestTurn(pieces: map<seq<byte>, (Token, F32)>, input: seq<byte>, n: nat)
    requires 0 < n <= |input|
    ensures LongestPiece(pieces, input, n) ==
            if input[..n] in pieces then n else LongestPiece(pieces, input, n - 1)
  {
  }

  method ScanPieces(t: SentencePiece, input: seq<byte>, pos: nat) returns (best: Option<(nat, Token, F32)>)
    requires pos < |input|
    requires forall piece :: piece in t.pieces ==> |piece| <= t.maxPieceLen
    ensures var len := LongestPiece(t.pieces, input[pos..], |input| - pos);
            best == if len == 0 then None
                    else Some((len, t.pieces[input[pos..][..len]].0, t.pieces[input[pos..][..len]].1))
  {
    hide LongestPiece, Greater;
    var rest := input[pos..];
    var maxEnd := if |input| <= pos + t.maxPieceLen then |input| else pos + t.maxPieceLen;
    CapHidesNothing(t.pieces, rest, t.maxPieceLen, |rest|);
    best := None;
    NoPieceYet(t.pieces, rest);
    for len := 1 to maxEnd - pos + 1
      invariant var found := LongestPiece(t.pieces, rest, len - 1);
                best == if found == 0 then None
                        else Some((found, t.pieces[rest[..found]].0, t.pieces[rest[..found]].1))
    {
      assert input[pos..pos + len] == rest[..len];
      LongestTurn(t.pieces, rest, len);
      var piece := input[pos..pos + len];
      if piece in t.pieces {
        var (id, score) := t.pieces[piece];
        if best.None? {
          best := Some((len, id, score));
        } else {
          var (bestLen, bestId, bestScore) := best.value;
          if len > bestLen || (len == bestLen && (Greater(score, bestScore) || (score == bestScore && id < bestId))) {
            best := Some((len, id, score));
          }
        }
      }
    }
  }

  method MunchTokens(t: SentencePiece, input: seq<byte>) returns (r: Result<seq<Token>, TokenError>)
    requires forall piece :: piece in t.pieces ==> |piece| <= t.maxPieceLen
    ensures r == MaximalMunch(t, input)
  {
    hide MaximalMunch, LongestPiece;
    var out: seq<Token> := [];
    var pos := 0;
    assert input[0..] == input;
    PrefixedNothing(MaximalMunch(t, input));
    NothingToMunch(t, input);
    while pos < |input|
      invariant pos <= |input|
      invariant MaximalMunch(t, input) == Prefixed(out, MaximalMunch(t, input[pos..]))
    {
      MunchTurn(t, input, pos, out);
      var best := ScanPieces(t, input, pos);
      if best.Some? {
        out := out + [best.value.1];
        pos := pos + best.value.0;
      } else {
        if input[pos] !in t.fallback.byteToToken {
          return Err(MissingByteFallback(input[pos]));
        }
        out := out + [t.fallback.byteToToken[input[pos]]];
        pos := pos + 1;
      }
    }
    assert out + [] == out;
    r := Ok(out);
  }

  lemma NothingToMunch(t: SentencePiece, input: seq<byte>)
    ensures MaximalMunch(t, input[|input|..]) == Ok([])
  {
  }

  lemma MunchUnfolds(t: SentencePiece, s: seq<byte>)
    requires s != []
    ensures var len := LongestPiece(t.pieces, s, |s|);
            MaximalMunch(t, s) ==
            if len > 0 then Prefixed([t.pieces[s[..len]].0], MaximalMunch(t, s[len..]))
            else if s[0] !in t.fallback.byteToToken then Err(MissingByteFallback(s[0]))
            else Prefixed([t.fallback.byteToToken[s[0]]], MaximalMunch(t, s[1..]))
  {
    hide LongestPiece;
  }

  lemma MunchTurn(t: SentencePiece, input: seq<byte>, pos: nat, out: seq<Token>)
    requires pos < |input|
    ensures var len := LongestPiece(t.pieces, input[pos..], |input| - pos);
            Prefixed(out, MaximalMunch(t, input[pos..])) ==
            if len > 0 then Prefixed(out + [t.pieces[input[pos..][..len]].0], MaximalMunch(t, input[pos + len..]))
            else if input[pos] !in t.fallback.byteToToken then Err(MissingByteFallback(input[pos]))
            else Prefixed(out + [t.fallback.byteToToken[input[pos]]], MaximalMunch(t, input[pos + 1..]))
  {
    hide LongestPiece, MaximalMunch, Prefixed;
    var s := input[pos..];
    var len := LongestPiece(t.pieces, s, |s|);
    MunchUnfolds(t, s);
    if len > 0 {
      assert s[len..] == input[pos + len..];
      PrefixedTwice(out, [t.pieces[s[..len]].0], MaximalMunch(t, s[len..]));
    } else if s[0] in t.fallback.byteToToken {
      assert s[1..] == input[pos + 1..];
      PrefixedTwice(out, [t.fallback.byteToToken[s[0]]], MaximalMunch(t, s[1..]));
    } else {
      PrefixedError<Token, TokenError>(out, MissingByteFallback(s[0]));
    }
  }

  // ----- tokenizing -----

  function BytesOf(t: Tokenizer): map<byte, Token> {
    match t
    case Fallback(f) => f.byteToToken
    case Pairs(b) => b.byteToToken
    case Munch(s) => s.fallback.byteToToken
  }

  function Tokenize(t: Tokenizer, input: seq<byte>): Result<seq<Token>, TokenError> {
    match t
    case Fallback(f) => ByteTokens(f.byteToToken, input)
    case Pairs(b) =>
      var ids :- ByteTokens(b.byteToToken, input);
      Ok(RankScan(b.ranks, ids))
    case Munch(s) => MaximalMunch(s, input)
  }

  ghost predicate Capped(t: Tokenizer) {
    t.Munch? ==> forall piece :: piece in t.sp.pieces ==> |piece| <= t.sp.maxPieceLen
  }

  method TokenizeBytes(t: Tokenizer, input: seq<byte>) returns (r: Result<seq<Token>, TokenError>)
    requires Capped(t)
    ensures r == Tokenize(t, input)
  {
    match t {
      case Fallback(f) =>
        r := TokensOfBytes(f.byteToToken, input);
      case Pairs(b) =>
        var ids := TokensOfBytes(b.byteToToken, input);
        if ids.Err? {
          return Err(ids.error);
        }
        ghost var pops;
        var out: seq<Token>;
        out, pops := MergeByHeap(b.ranks, ids.value);
        r := Ok(out);
      case Munch(s) =>
        r := MunchTokens(s, input);
    }
  }

  /** The bytes of one token, for the tokens a decoder knows. */
  function TokenBytes(t: Tokenizer, token: Token): Option<seq<byte>> {
    match t
    case Fallback(f) => if token in f.tokenToByte then Some([f.tokenToByte[token]]) else None
    case Pairs(b) => if token in b.tokenToBytes then Some(b.tokenToBytes[token]) else None
    case Munch(s) => if token in s.tokenToBytes then Some(s.tokenToBytes[token]) else None
  }

  function Detokenize(t: Tokenizer, tokens: seq<Token>): Result<seq<byte>, TokenError>
    decreases |tokens|
  {
    if tokens == [] then Ok([])
    else if TokenBytes(t, tokens[0]).None? then Err(InvalidToken(tokens[0]))
    else
      var rest :- Detokenize(t, tokens[1..]);
      Ok(TokenBytes(t, tokens[0]).value + rest)
  }

  // ----- symbols of the codec -----

  /** How many leading bytes have a token of their own. */
  function RunLength(t: Tokenizer, input: seq<byte>): (n: nat)
    ensures n <= |input| && Tokenizable(BytesOf(t), input[..n])
    ensures n < |input| ==> input[n] !in BytesOf(t)
    decreases |input|
  {
    if input == [] || input[0] !in BytesOf(t) then 0 else 1 + RunLength(t, input[1..])
  }

  function AsSymbols(tokens: seq<Token>): (r: seq<CodecSymbol>)
    ensures |r| == |tokens|
  {
    seq(|tokens|, i requires 0 <= i < |tokens| => TokenSymbol(tokens[i]))
  }

  /** Runs of covered bytes are tokenized; every other byte is escaped. */
  function SymbolStream(t: Tokenizer, input: seq<byte>): Result<seq<CodecSymbol>, TokenError>
    decreases |input|
  {
    if input == [] then Ok([])
    else
      var n := RunLength(t, input);
      if n == 0 then
        var rest :- SymbolStream(t, input[1..]);
        Ok([ByteEscape(input[0])] + rest)
      else
        var tokens :- Tokenize(t, input[..n]);
        var rest :- SymbolStream(t, input[n..]);
        Ok(AsSymbols(tokens) + rest)
  }

  function SymbolNumber(s: CodecSymbol, vocabLen: nat): nat {
    match s
    case TokenSymbol(token) => token
    case ByteEscape(b) => vocabLen + b
  }

  function Numbers(symbols: seq<CodecSymbol>, vocabLen: nat): (r: seq<nat>)
    ensures |r| == |symbols|
  {
    seq(|symbols|, i requires 0 <= i < |symbols| => SymbolNumber(symbols[i], vocabLen))
  }

  function CodecSymbols(t: Tokenizer, input: seq<byte>, vocabLen: nat): Result<seq<nat>, TokenError> {
    var symbols :- SymbolStream(t, input);
    Ok(Numbers(symbols, vocabLen))
  }

  function DecodeSymbol(t: Tokenizer, symbol: nat, vocabLen: nat): Result<seq<byte>, TokenError> {
    if symbol < vocabLen then
      if symbol >= MAX_TOKENS then Err(TokenIndexOverflow) else Detokenize(t, [symbol])
    else if symbol < vocabLen + 256 then Ok([symbol - vocabLen])
    else Err(InvalidToken(if symbol < MAX_TOKENS then symbol else MAX_TOKENS - 1))
  }

  predicate SymbolIsToken(symbol: nat, vocabLen: nat) {
    symbol < vocabLen
  }

  method RunEnd(t: Tokenizer, input: seq<byte>, start: nat) returns (pos: nat)
    requires start < |input| && input[start] in BytesOf(t)
    ensures start < pos <= |input| && pos == start + RunLength(t, input[start..])
    ensures input[start..][..pos - start] == input[start..pos]
  {
    pos := start + 1;
    while pos < |input| && input[pos] in BytesOf(t)
      invariant start < pos <= |input|
      invariant forall i :: start <= i < pos ==> input[i] in BytesOf(t)
    {
      pos := pos + 1;
    }
    RunLengthIs(t, input[start..], pos - start);
  }

  method AppendTokens(before: seq<CodecSymbol>, tokens: seq<Token>) returns (out: seq<CodecSymbol>)
    ensures out == before + AsSymbols(tokens)
  {
    out := before;
    for i := 0 to |tokens|
      invariant out == before + AsSymbols(tokens[..i])
    {
      assert AsSymbols(tokens[..i + 1]) == AsSymbols(tokens[..i]) + [TokenSymbol(tokens[i])];
      out := out + [TokenSymbol(tokens[i])];
    }
    assert tokens[..|tokens|] == tokens;
  }

  method CodecSymbolStream(t: Tokenizer, input: seq<byte>) returns (r: Result<seq<CodecSymbol>, TokenError>)
    requires Capped(t)
    ensures r == SymbolStream(t, input)
  {
    hide SymbolStream, Tokenize, RunLength, BytesOf;
    var out: seq<CodecSymbol> := [];
    var pos := 0;
    assert input[0..] == input;
    NoSymbolsLeft(t, input);
    PrefixedNothing(SymbolStream(t, input));
    while pos < |input|
      invariant pos <= |input|
      invariant SymbolStream(t, input) == Prefixed(out, SymbolStream(t, input[pos..]))
    {
      StreamTurn(t, input, pos, out);
      if input[pos] !in BytesOf(t) {
        out := out + [ByteEscape(input[pos])];
        pos := pos + 1;
        continue;
      }
      var start := pos;
      pos := RunEnd(t, input, start);
      var tokens := TokenizeBytes(t, input[start..pos]);
      if tokens.Err? {
        return Err(tokens.error);
      }
      out := AppendTokens(out, tokens.value);
    }
    assert out + [] == out;
    r := Ok(out);
  }

  lemma NoSymbolsLeft(t: Tokenizer, input: seq<byte>)
    ensures SymbolStream(t, input[|input|..]) == Ok([])
  {
  }

  lemma {:induction false} RunLengthIs(t: Tokenizer, input: seq<byte>, n: nat)
    requires n <= |input| && Tokenizable(BytesOf(t), input[..n])
    requires n < |input| ==> input[n] !in BytesOf(t)
    ensures RunLength(t, input) == n
  {
    var m := RunLength(t, input);
  }

  lemma StreamTurn(t: Tokenizer, input: seq<byte>, pos: nat, out: seq<CodecSymbol>)
    requires pos < |input|
    ensures var n := RunLength(t, input[pos..]);
            && (n == 0 <==> input[pos] !in BytesOf(t))
            && Prefixed(out, SymbolStream(t, input[pos..])) ==
               if n == 0 then Prefixed(out + [ByteEscape(input[pos])], SymbolStream(t, input[pos + 1..]))
               else
                 var tokens := Tokenize(t, input[pos..][..n]);
                 if tokens.Err? then Err(tokens.error)
                 else Prefixed(out + AsSymbols(tokens.value), SymbolStream(t, input[pos + n..]))
  {
    hide Tokenize, SymbolStream, Prefixed, AsSymbols;
    var s := input[pos..];
    var n := RunLength(t, s);
    StreamUnfolds(t, s);
    if n == 0 {
      assert s[1..] == input[pos + 1..];
      PrefixedTwice(out, [ByteEscape(s[0])], SymbolStream(t, s[1..]));
    } else if Tokenize(t, s[..n]).Ok? {
      assert s[n..] == input[pos + n..];
      PrefixedTwice(out, AsSymbols(Tokenize(t, s[..n]).value), SymbolStream(t, s[n..]));
    } else {
      PrefixedError<CodecSymbol, TokenError>(out, Tokenize(t, s[..n]).error);
    }
  }

  lemma StreamUnfolds(t: Tokenizer, s: seq<byte>)
    requires s != []
    ensures var n := RunLength(t, s);
            SymbolStream(t, s) ==
            if n == 0 then Prefixed([ByteEscape(s[0])], SymbolStream(t, s[1..]))
            else if Tokenize(t, s[..n]).Err? then Err(Tokenize(t, s[..n]).error)
            else Prefixed(AsSymbols(Tokenize(t, s[..n]).value), SymbolStream(t, s[n..]))
  {
    hide Tokenize, RunLength;
  }
}
