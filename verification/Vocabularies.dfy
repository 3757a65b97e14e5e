/** Building the three tokenizers from a vocabulary, and what a built tokenizer guarantees. */
module Vocabularies {
  import opened Bits
  import opened Outcomes
  import opened Floats
  import opened Bpe
  import opened Pieces

  datatype TokenError =
    | MissingByteFallback(b: byte)
    | InvalidToken(token: nat)
    | MissingTokenBytes(bytes: seq<byte>)
    | MissingMergeToken(merged: seq<byte>)
    | IncompleteByteFallback(missing: seq<byte>)
    | ScoresLength
    | NonFiniteScore
    | TokenIndexOverflow
    | DuplicateByteFallback(duplicate: byte)
    | DuplicateTokenId
    | DuplicateTokenBytes(repeated: seq<byte>)
    | InvalidMerge(merge: string)
    | DuplicateMerge(again: string)

  const MAX_TOKENS: nat := 0x1_0000_0000

  datatype ByteFallback = ByteFallback(byteToToken: map<byte, Token>, tokenToByte: map<Token, byte>)

  datatype ByteBpe = ByteBpe(byteToToken: map<byte, Token>, tokenToBytes: map<Token, seq<byte>>, ranks: Ranks)

  datatype SentencePiece = SentencePiece(fallback: ByteFallback, tokenToBytes: map<Token, seq<byte>>,
                                         pieces: map<seq<byte>, (Token, F32)>, maxPieceLen: nat)

  // ----- byte fallback -----

  predicate Spells(tokens: seq<string>, i: nat, b: byte) {
    i < |tokens| && CanonicalByte(tokens[i]) == Some(b)
  }

  ghost predicate HasByte(tokens: seq<string>, b: byte) {
    exists i: nat :: Spells(tokens, i, b)
  }

  /** Every byte is spelled by exactly one entry. */
  ghost predicate Complete(tokens: seq<string>) {
    && (forall b: byte :: HasByte(tokens, b))
    && (forall i: nat, j: nat, b: byte :: Spells(tokens, i, b) && Spells(tokens, j, b) ==> i == j)
    && (forall i: nat, b: byte :: Spells(tokens, i, b) ==> i < MAX_TOKENS)
  }

  /** The two tables hold exactly the byte entries, the first only those that may be emitted. */
  ghost predicate IsFallback(t: ByteFallback, tokens: seq<string>, mask: Option<seq<bool>>) {
    && (forall i :: i in t.tokenToByte ==> Spells(tokens, i, t.tokenToByte[i]))
    && (forall i: nat, b: byte :: Spells(tokens, i, b) ==> i in t.tokenToByte && t.tokenToByte[i] == b)
    && (forall b :: b in t.byteToToken ==> Spells(tokens, t.byteToToken[b], b) && Emittable(mask, t.byteToToken[b]))
    && (forall i: nat, b: byte :: Spells(tokens, i, b) && Emittable(mask, i) ==>
          b in t.byteToToken && t.byteToToken[b] == i)
  }

  /** No byte is spelled twice among the first n entries. */
  ghost predicate NoneTwice(tokens: seq<string>, n: nat) {
    forall i: nat, j: nat, b: byte :: i < n && j < n && Spells(tokens, i, b) && Spells(tokens, j, b) ==> i == j
  }

  /** Entry i spells a byte that an earlier one spells. */
  ghost predicate SpelledAgain(tokens: seq<string>, i: nat, b: byte) {
    Spells(tokens, i, b) && NoneTwice(tokens, i) && exists j: nat :: j < i && Spells(tokens, j, b)
  }

  /** Why there is no byte fallback: the first entry in the way, or else the bytes that have none, in order. */
  ghost predicate FallbackProblem(tokens: seq<string>, e: TokenError) {
    match e
    case DuplicateByteFallback(b) => exists i: nat :: i < MAX_TOKENS && SpelledAgain(tokens, i, b)
    case TokenIndexOverflow => |tokens| > MAX_TOKENS && NoneTwice(tokens, MAX_TOKENS)
    case IncompleteByteFallback(missing) =>
      && NoneTwice(tokens, |tokens|)
      && (forall b: byte :: b in missing <==> !HasByte(tokens, b))
      && forall i, j :: 0 <= i < j < |missing| ==> missing[i] < missing[j]
    case _ => false
  }

  ghost predicate Listed(pairs: seq<(byte, Token)>, tokens: seq<string>, n: nat) {
    && (forall k :: 0 <= k < |pairs| ==> pairs[k].1 < n && Spells(tokens, pairs[k].1, pairs[k].0))
    && (forall i: nat, b: byte :: i < n && Spells(tokens, i, b) ==> (b, i) in pairs)
    && (forall j, k :: 0 <= j < k < |pairs| ==> pairs[j].0 != pairs[k].0 && pairs[j].1 != pairs[k].1)
  }

  predicate Paired(pairs: seq<(byte, Token)>, b: byte) {
    exists k :: 0 <= k < |pairs| && pairs[k].0 == b
  }

  method MissingBytes(pairs: seq<(byte, Token)>) returns (missing: seq<byte>)
    ensures forall b: byte :: b in missing <==> !Paired(pairs, b)
    ensures forall i, j :: 0 <= i < j < |missing| ==> missing[i] < missing[j]
  {
    missing := [];
    for b := 0 to 256
      invariant forall c: byte :: c in missing <==> c < b && !Paired(pairs, c)
      invariant forall i :: 0 <= i < |missing| ==> missing[i] < b
      invariant forall i, j :: 0 <= i < j < |missing| ==> missing[i] < missing[j]
    {
      if !Paired(pairs, b) {
        missing := missing + [b];
      }
    }
  }

  method FallbackFromTokens(tokens: seq<string>, mask: Option<seq<bool>>) returns (r: Result<ByteFallback, TokenError>)
    ensures r.Ok? <==> Complete(tokens)
    ensures r.Ok? ==> IsFallback(r.value, tokens, mask)
    ensures r.Err? ==> FallbackProblem(tokens, r.error)
  {
    hide CanonicalByte, IsFallback;
    var pairs: seq<(byte, Token)> := [];
    for i := 0 to |tokens|
      invariant Listed(pairs, tokens, i)
      invariant forall k :: 0 <= k < |pairs| ==> pairs[k].1 < MAX_TOKENS
    {
      var byte := CanonicalByte(tokens[i]);
      if byte.Some? {
        assert Spells(tokens, i, byte.value);
        if i >= MAX_TOKENS {
          ListedOnce(pairs, tokens, i);
          return Err(TokenIndexOverflow);
        }
        if Paired(pairs, byte.value) {
          RepeatedByte(pairs, tokens, i, byte.value);
          return Err(DuplicateByteFallback(byte.value));
        }
        pairs := pairs + [(byte.value, i)];
      }
    }
    var missing := MissingBytes(pairs);
    ListedOnce(pairs, tokens, |tokens|);
    PairedIsSpelled(pairs, tokens);
    if missing != [] {
      assert !HasByte(tokens, missing[0]);
      return Err(IncompleteByteFallback(missing));
    }
    PairsComplete(pairs, tokens);
    r := FallbackFromPairs(pairs, tokens, mask);
  }

  lemma ListedOnce(pairs: seq<(byte, Token)>, tokens: seq<string>, n: nat)
    requires Listed(pairs, tokens, n)
    ensures NoneTwice(tokens, n)
  {
    forall i: nat, j: nat, b: byte | i < n && j < n && Spells(tokens, i, b) && Spells(tokens, j, b)
      ensures i == j
    {
      assert (b, i) in pairs && (b, j) in pairs;
    }
  }

  lemma RepeatedByte(pairs: seq<(byte, Token)>, tokens: seq<string>, i: nat, b: byte)
    requires Listed(pairs, tokens, i) && Paired(pairs, b) && Spells(tokens, i, b)
    ensures SpelledAgain(tokens, i, b) && !Complete(tokens)
  {
    ListedOnce(pairs, tokens, i);
    var k :| 0 <= k < |pairs| && pairs[k].0 == b;
    assert Spells(tokens, pairs[k].1, b);
  }

  lemma PairedIsSpelled(pairs: seq<(byte, Token)>, tokens: seq<string>)
    requires Listed(pairs, tokens, |tokens|)
    ensures forall b: byte :: Paired(pairs, b) <==> HasByte(tokens, b)
  {
    forall b: byte
      ensures Paired(pairs, b) <==> HasByte(tokens, b)
    {
      if Paired(pairs, b) {
        var k :| 0 <= k < |pairs| && pairs[k].0 == b;
        assert Spells(tokens, pairs[k].1, b);
      }
      if HasByte(tokens, b) {
        var i: nat :| Spells(tokens, i, b);
        assert (b, i) in pairs;
      }
    }
  }

  lemma PairsComplete(pairs: seq<(byte, Token)>, tokens: seq<string>)
    requires Listed(pairs, tokens, |tokens|)
    requires forall k :: 0 <= k < |pairs| ==> pairs[k].1 < MAX_TOKENS
    requires forall b: byte :: Paired(pairs, b)
    ensures Complete(tokens)
  {
    forall b: byte
      ensures HasByte(tokens, b)
    {
      assert Paired(pairs, b);
      var k :| 0 <= k < |pairs| && pairs[k].0 == b;
      assert Spells(tokens, pairs[k].1, b);
    }
    forall i: nat, j: nat, b: byte | Spells(tokens, i, b) && Spells(tokens, j, b)
      ensures i == j
    {
      assert (b, i) in pairs && (b, j) in pairs;
    }
  }

  /** The tables of the first k pairs. */
  ghost predicate Tabled(t: ByteFallback, pairs: seq<(byte, Token)>, mask: Option<seq<bool>>, k: nat)
    requires k <= |pairs|
  {
    && (forall i :: i in t.tokenToByte ==> (t.tokenToByte[i], i) in pairs[..k])
    && (forall j :: 0 <= j < k ==> pairs[j].1 in t.tokenToByte && t.tokenToByte[pairs[j].1] == pairs[j].0)
    && (forall b :: b in t.byteToToken ==> (b, t.byteToToken[b]) in pairs[..k] && Emittable(mask, t.byteToToken[b]))
    && (forall j :: 0 <= j < k && Emittable(mask, pairs[j].1) ==>
          pairs[j].0 in t.byteToToken && t.byteToToken[pairs[j].0] == pairs[j].1)
  }

  function WithPair(t: ByteFallback, mask: Option<seq<bool>>, b: byte, i: Token): ByteFallback {
    ByteFallback(if Emittable(mask, i) then t.byteToToken[b := i] else t.byteToToken, t.tokenToByte[i := b])
  }

  lemma TabledNext(t: ByteFallback, pairs: seq<(byte, Token)>, mask: Option<seq<bool>>, k: nat)
    requires k < |pairs| && Tabled(t, pairs, mask, k)
    requires forall i, j :: 0 <= i < j < |pairs| ==> pairs[i].0 != pairs[j].0 && pairs[i].1 != pairs[j].1
    ensures var (b, i) := pairs[k];
            Tabled(WithPair(t, mask, b, i), pairs, mask, k + 1)
  {
    hide Emittable;
    MorePairs(pairs, k);
    var (b, i) := pairs[k];
    var next := WithPair(t, mask, b, i);
    forall j | 0 <= j < k + 1
      ensures pairs[j].1 in next.tokenToByte && next.tokenToByte[pairs[j].1] == pairs[j].0
      ensures Emittable(mask, pairs[j].1) ==>
                pairs[j].0 in next.byteToToken && next.byteToToken[pairs[j].0] == pairs[j].1
    {
      assert j < k ==> pairs[j].0 != b && pairs[j].1 != i;
    }
  }

  lemma MorePairs(pairs: seq<(byte, Token)>, k: nat)
    requires k < |pairs|
    ensures forall p :: p in pairs[..k + 1] <==> p in pairs[..k] || p == pairs[k]
  {
    assert pairs[..k + 1] == pairs[..k] + [pairs[k]];
  }

  lemma AllTabled(t: ByteFallback, pairs: seq<(byte, Token)>, tokens: seq<string>, mask: Option<seq<bool>>)
    requires Listed(pairs, tokens, |tokens|) && Tabled(t, pairs, mask, |pairs|)
    ensures IsFallback(t, tokens, mask)
  {
    assert pairs[..|pairs|] == pairs;
  }

  method FallbackFromPairs(pairs: seq<(byte, Token)>, tokens: seq<string>, mask: Option<seq<bool>>)
    returns (r: Result<ByteFallback, TokenError>)
    requires Listed(pairs, tokens, |tokens|)
    ensures r.Ok? && IsFallback(r.value, tokens, mask)
  {
    hide Tabled, IsFallback;
    var byteToToken, tokenToByte := map[], map[];
    NothingTabled(pairs, mask);
    for k := 0 to |pairs|
      invariant Tabled(ByteFallback(byteToToken, tokenToByte), pairs, mask, k)
    {
      TabledNext(ByteFallback(byteToToken, tokenToByte), pairs, mask, k);
      var (b, i) := pairs[k];
      tokenToByte := tokenToByte[i := b];
      if Emittable(mask, i) {
        byteToToken := byteToToken[b := i];
      }
    }
    AllTabled(ByteFallback(byteToToken, tokenToByte), pairs, tokens, mask);
    r := Ok(ByteFallback(byteToToken, tokenToByte));
  }

  lemma NothingTabled(pairs: seq<(byte, Token)>, mask: Option<seq<bool>>)
    ensures Tabled(ByteFallback(map[], map[]), pairs, mask, 0)
  {
  }

  // ----- byte-pair encoding -----

  /** The emittable piece of entry i. */
  predicate Emits(tokens: seq<string>, mask: Option<seq<bool>>, i: nat, piece: seq<byte>) {
    i < |tokens| && Emittable(mask, i) && PieceBytes(tokens[i]) == piece
  }

  /** No two emittable entries stand for the same bytes. */
  ghost predicate Distinct(tokens: seq<string>, mask: Option<seq<bool>>, n: nat) {
    forall i: nat, j: nat, piece ::
      i < n && j < n && Emits(tokens, mask, i, piece) && Emits(tokens, mask, j, piece) ==> i == j
  }

  /** Entry i is the first that stands for the bytes of an earlier emittable one. */
  ghost predicate FirstRepeat(tokens: seq<string>, mask: Option<seq<bool>>, i: nat) {
    i < |tokens| && i < MAX_TOKENS && Distinct(tokens, mask, i) && !Distinct(tokens, mask, i + 1)
  }

  function RepeatError(piece: seq<byte>): TokenError {
    if |piece| == 1 then DuplicateByteFallback(piece[0]) else DuplicateTokenBytes(piece)
  }

  ghost predicate TablesProblem(tokens: seq<string>, mask: Option<seq<bool>>, e: TokenError) {
    || (exists i: nat :: FirstRepeat(tokens, mask, i) && e == RepeatError(PieceBytes(tokens[i])))
    || (|tokens| > MAX_TOKENS && Distinct(tokens, mask, MAX_TOKENS) && e == TokenIndexOverflow)
  }

  /** The emittable entry for some bytes among the first n. */
  ghost predicate IsIndex(index: map<seq<byte>, Token>, tokens: seq<string>, mask: Option<seq<bool>>, n: nat) {
    && (forall piece :: piece in index ==> index[piece] < n && Emits(tokens, mask, index[piece], piece))
    && (forall i: nat, piece :: i < n && Emits(tokens, mask, i, piece) ==> piece in index && index[piece] == i)
  }

  /** What a merge rule says in terms of tokens, if its three pieces are in the vocabulary. */
  function RuleOf(index: map<seq<byte>, Token>, merge: string): Option<(Token, Token, Token)> {
    var parts := ParseMerge(merge);
    if parts.None? then None
    else
      var left, right := PieceBytes(parts.value.0), PieceBytes(parts.value.1);
      if left !in index || right !in index || left + right !in index then None
      else Some((index[left], index[right], index[left + right]))
  }

  function PairOf(index: map<seq<byte>, Token>, merge: string): Option<(Token, Token)> {
    var rule := RuleOf(index, merge);
    if rule.None? then None else Some((rule.value.0, rule.value.1))
  }

  /** The rules of the first n merges: ranks are positions, and only usable merges count. */
  ghost predicate AreRanks(ranks: Ranks, index: map<seq<byte>, Token>, merges: seq<string>, n: nat)
    requires n <= |merges|
  {
    && (forall p :: p in ranks ==> ranks[p].0 < n && RuleOf(index, merges[ranks[p].0]) == Some((p.0, p.1, ranks[p].1)))
    && (forall k :: 0 <= k < n && RuleOf(index, merges[k]).Some? ==>
          var (l, r, m) := RuleOf(index, merges[k]).value; (l, r) in ranks && ranks[(l, r)] == (k, m))
  }

  /** Merges are accepted if they parse, none repeats a pair, and, without a mask, all their pieces exist. */
  ghost predicate GoodMerges(index: map<seq<byte>, Token>, merges: seq<string>, mask: Option<seq<bool>>, n: nat)
    requires n <= |merges|
  {
    && (forall k :: 0 <= k < n ==> ParseMerge(merges[k]).Some? && (mask.None? ==> RuleOf(index, merges[k]).Some?))
    && (forall j, k :: 0 <= j < k < n && PairOf(index, merges[j]).Some? ==>
          PairOf(index, merges[j]) != PairOf(index, merges[k]))
  }

  /** Merge k is the first that cannot be accepted. */
  ghost predicate FirstBadMerge(index: map<seq<byte>, Token>, merges: seq<string>, mask: Option<seq<bool>>, k: nat) {
    k < |merges| && GoodMerges(index, merges, mask, k) && !GoodMerges(index, merges, mask, k + 1)
  }

  function MergeError(index: map<seq<byte>, Token>, merge: string): TokenError {
    var parts := ParseMerge(merge);
    if parts.None? then InvalidMerge(merge)
    else
      var left, right := PieceBytes(parts.value.0), PieceBytes(parts.value.1);
      if left !in index then MissingTokenBytes(left)
      else if right !in index then MissingTokenBytes(right)
      else if left + right !in index then MissingMergeToken(left + right)
      else DuplicateMerge(merge)
  }

  ghost predicate MergesProblem(index: map<seq<byte>, Token>, merges: seq<string>, mask: Option<seq<bool>>,
                                e: TokenError) {
    exists k: nat :: FirstBadMerge(index, merges, mask, k) && e == MergeError(index, merges[k])
  }

  /** Why there is no byte-pair tokenizer: the first repeated entry, or else the first bad merge. */
  ghost predicate BpeProblem(tokens: seq<string>, merges: seq<string>, mask: Option<seq<bool>>, e: TokenError) {
    || TablesProblem(tokens, mask, e)
    || exists index :: IsIndex(index, tokens, mask, |tokens|) && MergesProblem(index, merges, mask, e)
  }

  ghost predicate BpeBuildable(tokens: seq<string>, merges: seq<string>, mask: Option<seq<bool>>) {
    && |tokens| <= MAX_TOKENS
    && Distinct(tokens, mask, |tokens|)
    && exists index :: IsIndex(index, tokens, mask, |tokens|) && GoodMerges(index, merges, mask, |merges|)
  }

  ghost predicate HoldsPieces(tokenToBytes: map<Token, seq<byte>>, tokens: seq<string>, n: nat)
    requires n <= |tokens|
  {
    && (forall i: nat :: i in tokenToBytes <==> i < n)
    && (forall i :: 0 <= i < n ==> tokenToBytes[i] == PieceBytes(tokens[i]))
  }

  ghost predicate HoldsBytes(byteToToken: map<byte, Token>, tokens: seq<string>, mask: Option<seq<bool>>, n: nat) {
    && (forall b :: b in byteToToken ==> byteToToken[b] < n && Emits(tokens, mask, byteToToken[b], [b]))
    && (forall i: nat, b: byte :: i < n && Emits(tokens, mask, i, [b]) ==> b in byteToToken && byteToToken[b] == i)
  }

  ghost predicate IsBpe(t: ByteBpe, tokens: seq<string>, merges: seq<string>, mask: Option<seq<bool>>) {
    && HoldsPieces(t.tokenToBytes, tokens, |tokens|)
    && HoldsBytes(t.byteToToken, tokens, mask, |tokens|)
    && exists index :: IsIndex(index, tokens, mask, |tokens|) && AreRanks(t.ranks, index, merges, |merges|)
  }

  lemma IndexUnique(a: map<seq<byte>, Token>, b: map<seq<byte>, Token>, tokens: seq<string>, mask: Option<seq<bool>>)
    requires IsIndex(a, tokens, mask, |tokens|) && IsIndex(b, tokens, mask, |tokens|)
    ensures a == b
  {
    forall piece
      ensures piece in a <==> piece in b
    {
    }
  }

  method BpeFromTokens(tokens: seq<string>, merges: seq<string>, mask: Option<seq<bool>>)
    returns (r: Result<ByteBpe, TokenError>)
    ensures r.Ok? <==> BpeBuildable(tokens, merges, mask)
    ensures r.Ok? ==> IsBpe(r.value, tokens, merges, mask)
    ensures r.Err? ==> BpeProblem(tokens, merges, mask, r.error)
  {
    hide GoodMerges, AreRanks, Distinct, HoldsPieces, HoldsBytes, TablesProblem, MergesProblem;
    var tables := TablesFromTokens(tokens, mask);
    if tables.Err? {
      return Err(tables.error);
    }
    var (byteToToken, tokenToBytes, index) := tables.value;
    var ranks := RanksFromMerges(index, merges, mask);
    if ranks.Err? {
      if BpeBuildable(tokens, merges, mask) {
        var other :| IsIndex(other, tokens, mask, |tokens|) && GoodMerges(other, merges, mask, |merges|);
        IndexUnique(index, other, tokens, mask);
      }
      return Err(ranks.error);
    }
    r := Ok(ByteBpe(byteToToken, tokenToBytes, ranks.value));
  }

  method TablesFromTokens(tokens: seq<string>, mask: Option<seq<bool>>)
    returns (r: Result<(map<byte, Token>, map<Token, seq<byte>>, map<seq<byte>, Token>), TokenError>)
    ensures r.Ok? <==> |tokens| <= MAX_TOKENS && Distinct(tokens, mask, |tokens|)
    ensures r.Err? ==> TablesProblem(tokens, mask, r.error)
    ensures r.Ok? ==>
              && HoldsBytes(r.value.0, tokens, mask, |tokens|)
              && HoldsPieces(r.value.1, tokens, |tokens|)
              && IsIndex(r.value.2, tokens, mask, |tokens|)
  {
    hide PieceBytes, Emittable, Distinct, IsIndex, SingleBytes, HoldsPieces, FirstRepeat;
    NothingIndexed(tokens, mask);
    var byteToToken: map<byte, Token>, tokenToBytes: map<Token, seq<byte>> := map[], map[];
    var index: map<seq<byte>, Token> := map[];
    for i := 0 to |tokens|
      invariant i <= MAX_TOKENS && IsIndex(index, tokens, mask, i)
      invariant HoldsPieces(tokenToBytes, tokens, i) && SingleBytes(byteToToken, index)
    {
      if i >= MAX_TOKENS {
        IndexedDistinct(index, tokens, mask, i);
        return Err(TokenIndexOverflow);
      }
      var piece := PieceBytes(tokens[i]);
      IndexNext(index, byteToToken, tokens, mask, i);
      PieceNext(tokenToBytes, tokens, i);
      if Emittable(mask, i) {
        if |piece| == 1 {
          if piece[0] in byteToToken {
            Repeated(index, tokens, mask, i);
            return Err(DuplicateByteFallback(piece[0]));
          }
          byteToToken := byteToToken[piece[0] := i];
        }
        if piece in index {
          Repeated(index, tokens, mask, i);
          return Err(DuplicateTokenBytes(piece));
        }
        index := index[piece := i];
      }
      tokenToBytes := tokenToBytes[i := piece];
    }
    IndexMeansDistinct(index, byteToToken, tokens, mask);
    r := Ok((byteToToken, tokenToBytes, index));
  }

  ghost predicate SingleBytes(byteToToken: map<byte, Token>, index: map<seq<byte>, Token>) {
    && (forall b :: b in byteToToken ==> [b] in index && index[[b]] == byteToToken[b])
    && (forall b: byte :: [b] in index ==> b in byteToToken)
  }

  lemma NothingIndexed(tokens: seq<string>, mask: Option<seq<bool>>)
    ensures IsIndex(map[], tokens, mask, 0) && HoldsPieces(map[], tokens, 0) && SingleBytes(map[], map[])
  {
  }

  lemma PieceNext(tokenToBytes: map<Token, seq<byte>>, tokens: seq<string>, i: nat)
    requires i < |tokens| && i < MAX_TOKENS && HoldsPieces(tokenToBytes, tokens, i)
    ensures HoldsPieces(tokenToBytes[i := PieceBytes(tokens[i])], tokens, i + 1)
  {
    hide PieceBytes;
  }

  /** What the next entry does to the index and to the table of single bytes. */
  lemma IndexNext(index: map<seq<byte>, Token>, byteToToken: map<byte, Token>, tokens: seq<string>,
                  mask: Option<seq<bool>>, i: nat)
    requires i < |tokens| && i < MAX_TOKENS && IsIndex(index, tokens, mask, i) && SingleBytes(byteToToken, index)
    ensures !Emittable(mask, i) ==> IsIndex(index, tokens, mask, i + 1)
    ensures var piece := PieceBytes(tokens[i]);
            && (|piece| == 1 ==> (piece[0] in byteToToken <==> piece in index))
            && (Emittable(mask, i) && piece !in index ==>
                  && IsIndex(index[piece := i], tokens, mask, i + 1)
                  && SingleBytes(if |piece| == 1 then byteToToken[piece[0] := i] else byteToToken, index[piece := i]))
  {
    hide PieceBytes, Emittable;
    var piece := PieceBytes(tokens[i]);
    if |piece| == 1 {
      assert piece == [piece[0]];
    }
  }

  lemma IndexedDistinct(index: map<seq<byte>, Token>, tokens: seq<string>, mask: Option<seq<bool>>, n: nat)
    requires IsIndex(index, tokens, mask, n)
    ensures Distinct(tokens, mask, n)
  {
  }

  lemma Repeated(index: map<seq<byte>, Token>, tokens: seq<string>, mask: Option<seq<bool>>, i: nat)
    requires i < |tokens| && i < MAX_TOKENS && Emittable(mask, i) && IsIndex(index, tokens, mask, i)
    requires PieceBytes(tokens[i]) in index
    ensures FirstRepeat(tokens, mask, i) && !Distinct(tokens, mask, |tokens|)
  {
    var piece := PieceBytes(tokens[i]);
    IndexedDistinct(index, tokens, mask, i);
    assert Emits(tokens, mask, i, piece) && Emits(tokens, mask, index[piece], piece);
  }

  lemma IndexMeansDistinct(index: map<seq<byte>, Token>, byteToToken: map<byte, Token>, tokens: seq<string>,
                           mask: Option<seq<bool>>)
    requires IsIndex(index, tokens, mask, |tokens|) && SingleBytes(byteToToken, index)
    ensures Distinct(tokens, mask, |tokens|) && HoldsBytes(byteToToken, tokens, mask, |tokens|)
  {
  }

  method RanksFromMerges(index: map<seq<byte>, Token>, merges: seq<string>, mask: Option<seq<bool>>)
    returns (r: Result<Ranks, TokenError>)
    ensures r.Ok? <==> GoodMerges(index, merges, mask, |merges|)
    ensures r.Ok? ==> AreRanks(r.value, index, merges, |merges|)
    ensures r.Err? ==> MergesProblem(index, merges, mask, r.error)
  {
    hide ParseMerge, PieceBytes, GoodMerges, AreRanks, FirstBadMerge;
    var ranks: Ranks := map[];
    NoMerges(index, merges, mask);
    for k := 0 to |merges|
      invariant GoodMerges(index, merges, mask, k) && AreRanks(ranks, index, merges, k)
    {
      if Refused(ranks, index, merges[k], mask) {
        MergeRefused(ranks, index, merges, mask, k);
      } else if RuleOf(index, merges[k]).None? {
        MergeSkipped(ranks, index, merges, mask, k);
      } else {
        MergeAdded(ranks, index, merges, mask, k);
      }
      var parts := ParseMerge(merges[k]);
      if parts.None? {
        return Err(InvalidMerge(merges[k]));
      }
      var left, right := PieceBytes(parts.value.0), PieceBytes(parts.value.1);
      if left !in index || right !in index {
        if mask.Some? {
          continue;
        }
        return Err(MissingTokenBytes(if left !in index then left else right));
      }
      if left + right !in index {
        if mask.Some? {
          continue;
        }
        return Err(MissingMergeToken(left + right));
      }
      var pair := (index[left], index[right]);
      if pair in ranks {
        return Err(DuplicateMerge(merges[k]));
      }
      ranks := ranks[pair := (k, index[left + right])];
    }
    r := Ok(ranks);
  }

  lemma NoMerges(index: map<seq<byte>, Token>, merges: seq<string>, mask: Option<seq<bool>>)
    ensures GoodMerges(index, merges, mask, 0) && AreRanks(map[], index, merges, 0)
  {
  }

  /** A merge that cannot be accepted. */
  ghost predicate Refused(ranks: Ranks, index: map<seq<byte>, Token>, merge: string, mask: Option<seq<bool>>) {
    var rule := RuleOf(index, merge);
    ParseMerge(merge).None? || (rule.None? && mask.None?) || (rule.Some? && (rule.value.0, rule.value.1) in ranks)
  }

  lemma MergeRefused(ranks: Ranks, index: map<seq<byte>, Token>, merges: seq<string>, mask: Option<seq<bool>>, k: nat)
    requires k < |merges| && GoodMerges(index, merges, mask, k) && AreRanks(ranks, index, merges, k)
    requires Refused(ranks, index, merges[k], mask)
    ensures FirstBadMerge(index, merges, mask, k) && !GoodMerges(index, merges, mask, |merges|)
  {
    hide ParseMerge, RuleOf;
    var rule := RuleOf(index, merges[k]);
    if rule.Some? && (rule.value.0, rule.value.1) in ranks {
      var j := ranks[(rule.value.0, rule.value.1)].0;
      assert PairOf(index, merges[j]) == PairOf(index, merges[k]) && PairOf(index, merges[j]).Some?;
    }
  }

  lemma MergeSkipped(ranks: Ranks, index: map<seq<byte>, Token>, merges: seq<string>, mask: Option<seq<bool>>, k: nat)
    requires k < |merges| && GoodMerges(index, merges, mask, k) && AreRanks(ranks, index, merges, k)
    requires !Refused(ranks, index, merges[k], mask) && RuleOf(index, merges[k]).None?
    ensures GoodMerges(index, merges, mask, k + 1) && AreRanks(ranks, index, merges, k + 1)
  {
    hide ParseMerge, RuleOf;
  }

  lemma MergeAdded(ranks: Ranks, index: map<seq<byte>, Token>, merges: seq<string>, mask: Option<seq<bool>>, k: nat)
    requires k < |merges| && GoodMerges(index, merges, mask, k) && AreRanks(ranks, index, merges, k)
    requires !Refused(ranks, index, merges[k], mask) && RuleOf(index, merges[k]).Some?
    ensures GoodMerges(index, merges, mask, k + 1)
    ensures var (l, r, m) := RuleOf(index, merges[k]).value;
            AreRanks(ranks[(l, r) := (k, m)], index, merges, k + 1)
  {
    hide ParseMerge, RuleOf;
    forall j | 0 <= j < k && PairOf(index, merges[j]).Some?
      ensures PairOf(index, merges[j]) != PairOf(index, merges[k])
    {
      assert PairOf(index, merges[j]).value in ranks;
    }
  }

  // ----- sentence pieces -----

  ghost predicate GoodScores(scores: Option<seq<F32>>, tokens: seq<string>) {
    scores.Some? ==> |scores.value| == |tokens| && AllFinite(scores.value)
  }

  function ScoreOf(scores: Option<seq<F32>>, i: nat): F32 {
    if scores.Some? && i < |scores.value| then scores.value[i] else 0
  }

  /** Of the entries for the same bytes, the lowest one among those with the highest score. */
  ghost predicate Wins(tokens: seq<string>, scores: Option<seq<F32>>, mask: Option<seq<bool>>, n: nat, piece: seq<byte>,
                       i: nat) {
    && i < n && Emits(tokens, mask, i, piece)
    && forall j: nat :: j < n && Emits(tokens, mask, j, piece) ==>
         Key(ScoreOf(scores, j)) < Key(ScoreOf(scores, i))
         || (Key(ScoreOf(scores, j)) == Key(ScoreOf(scores, i)) && i <= j)
  }

  ghost predicate HoldsWinners(pieces: map<seq<byte>, (Token, F32)>, tokens: seq<string>, scores: Option<seq<F32>>,
                               mask: Option<seq<bool>>, n: nat) {
    && (forall piece :: piece in pieces ==>
          && |piece| > 1 && Wins(tokens, scores, mask, n, piece, pieces[piece].0)
          && pieces[piece].1 == ScoreOf(scores, pieces[piece].0))
    && (forall i: nat, piece :: i < n && Emits(tokens, mask, i, piece) && |piece| > 1 ==> piece in pieces)
  }

  ghost predicate IsSentencePiece(t: SentencePiece, tokens: seq<string>, scores: Option<seq<F32>>,
                                  mask: Option<seq<bool>>) {
    && IsFallback(t.fallback, tokens, mask)
    && HoldsPieces(t.tokenToBytes, tokens, |tokens|)
    && HoldsWinners(t.pieces, tokens, scores, mask, |tokens|)
    && 1 <= t.maxPieceLen
    && forall piece :: piece in t.pieces ==> |piece| <= t.maxPieceLen
  }

  ghost predicate SentencePieceProblem(tokens: seq<string>, scores: Option<seq<F32>>, e: TokenError) {
    if scores.Some? && |scores.value| != |tokens| then e == ScoresLength
    else if scores.Some? && !AllFinite(scores.value) then e == NonFiniteScore
    else if Complete(tokens) then |tokens| > MAX_TOKENS && e == TokenIndexOverflow
    else FallbackProblem(tokens, e)
  }

  method SentencePieceFromTokens(tokens: seq<string>, scores: Option<seq<F32>>, mask: Option<seq<bool>>)
    returns (r: Result<SentencePiece, TokenError>)
    ensures r.Ok? <==> GoodScores(scores, tokens) && Complete(tokens) && |tokens| <= MAX_TOKENS
    ensures r.Ok? ==> IsSentencePiece(r.value, tokens, scores, mask)
    ensures r.Err? ==> SentencePieceProblem(tokens, scores, r.error)
  {
    hide PieceBytes, Emittable, Complete, IsFallback, HoldsWinners;
    if scores.Some? {
      if |scores.value| != |tokens| {
        return Err(ScoresLength);
      }
      if !AllFinite(scores.value) {
        return Err(NonFiniteScore);
      }
    }
    var fallback := FallbackFromTokens(tokens, mask);
    if fallback.Err? {
      return Err(fallback.error);
    }
    var tokenToBytes: map<Token, seq<byte>>, pieces: map<seq<byte>, (Token, F32)>, maxPieceLen := map[], map[], 1;
    NoWinners(tokens, scores, mask);
    for i := 0 to |tokens|
      invariant i <= MAX_TOKENS && 1 <= maxPieceLen
      invariant HoldsPieces(tokenToBytes, tokens, i)
      invariant HoldsWinners(pieces, tokens, scores, mask, i)
      invariant forall piece :: piece in pieces ==> |piece| <= maxPieceLen
    {
      if i >= MAX_TOKENS {
        return Err(TokenIndexOverflow);
      }
      var piece := PieceBytes(tokens[i]);
      if |piece| > 1 && Emittable(mask, i) {
        maxPieceLen := if maxPieceLen >= |piece| then maxPieceLen else |piece|;
        pieces := Contend(pieces, tokens, scores, mask, i);
      } else {
        NotAContender(pieces, tokens, scores, mask, i);
      }
      tokenToBytes := tokenToBytes[i := piece];
    }
    r := Ok(SentencePiece(fallback.value, tokenToBytes, pieces, maxPieceLen));
  }

  lemma NoWinners(tokens: seq<string>, scores: Option<seq<F32>>, mask: Option<seq<bool>>)
    ensures HoldsWinners(map[], tokens, scores, mask, 0)
  {
  }

  lemma NotAContender(pieces: map<seq<byte>, (Token, F32)>, tokens: seq<string>, scores: Option<seq<F32>>,
                      mask: Option<seq<bool>>, i: nat)
    requires i < |tokens| && HoldsWinners(pieces, tokens, scores, mask, i)
    requires |PieceBytes(tokens[i])| <= 1 || !Emittable(mask, i)
    ensures HoldsWinners(pieces, tokens, scores, mask, i + 1)
  {
    hide PieceBytes, Emittable;
  }

  /** Entry i against the best earlier entry for its bytes. */
  method Contend(pieces: map<seq<byte>, (Token, F32)>, tokens: seq<string>, scores: Option<seq<F32>>,
                 mask: Option<seq<bool>>, i: nat)
    returns (after: map<seq<byte>, (Token, F32)>)
    requires i < |tokens| && HoldsWinners(pieces, tokens, scores, mask, i)
    requires |PieceBytes(tokens[i])| > 1 && Emittable(mask, i)
    ensures HoldsWinners(after, tokens, scores, mask, i + 1)
    ensures after.Keys == pieces.Keys + {PieceBytes(tokens[i])}
  {
    hide PieceBytes, Emittable, Wins, Emits, Key;
    var piece, score := PieceBytes(tokens[i]), ScoreOf(scores, i);
    after := pieces;
    if piece in pieces {
      var (bestId, bestScore) := pieces[piece];
      if Greater(score, bestScore) || (score == bestScore && i < bestId) {
        after := pieces[piece := (i, score)];
      }
    } else {
      after := pieces[piece := (i, score)];
    }
    forall other | other in after
      ensures Wins(tokens, scores, mask, i + 1, other, after[other].0)
    {
      WinnerAfter(pieces, tokens, scores, mask, i, other);
    }
    forall j: nat, other | j < i + 1 && Emits(tokens, mask, j, other) && |other| > 1
      ensures other in after
    {
      assert j == i ==> other == piece by {
        assert Emits(tokens, mask, j, other);
        EmitsItsPiece(tokens, mask, j, other);
      }
    }
  }

  lemma EmitsItsPiece(tokens: seq<string>, mask: Option<seq<bool>>, j: nat, piece: seq<byte>)
    requires Emits(tokens, mask, j, piece)
    ensures j < |tokens| && PieceBytes(tokens[j]) == piece
  {
  }

  /** Who wins for some bytes once entry i has been considered. */
  lemma WinnerAfter(pieces: map<seq<byte>, (Token, F32)>, tokens: seq<string>, scores: Option<seq<F32>>,
                    mask: Option<seq<bool>>, i: nat, other: seq<byte>)
    requires i < |tokens| && HoldsWinners(pieces, tokens, scores, mask, i)
    requires |PieceBytes(tokens[i])| > 1 && Emittable(mask, i)
    ensures other in pieces && other != PieceBytes(tokens[i]) ==>
              Wins(tokens, scores, mask, i + 1, other, pieces[other].0)
    ensures other == PieceBytes(tokens[i]) ==>
              var newcomer := other !in pieces || Greater(ScoreOf(scores, i), pieces[other].1);
              && (newcomer ==> Wins(tokens, scores, mask, i + 1, other, i))
              && (!newcomer ==> Wins(tokens, scores, mask, i + 1, other, pieces[other].0) && pieces[other].0 < i)
  {
    hide PieceBytes, Emittable;
    if other in pieces {
      assert Wins(tokens, scores, mask, i, other, pieces[other].0);
    }
    if other == PieceBytes(tokens[i]) {
      assert Emits(tokens, mask, i, other);
    }
  }
}
