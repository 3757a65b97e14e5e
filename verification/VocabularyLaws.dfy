/** What a built tokenizer's tables hold, in terms of the vocabulary's entries and merge rules alone. */
module VocabularyLaws {
  import opened Bits
  import opened Outcomes
  import opened Floats
  import opened Bpe
  import opened Pieces
  import opened Vocabularies

  /** Entry i exists and is not masked; entries beyond the mask are not. */
  ghost predicate Usable(tokens: seq<string>, mask: Option<seq<bool>>, i: nat) {
    i < |tokens| && (mask.Some? && i < |mask.value| ==> mask.value[i])
  }

  lemma FallbackTables(t: ByteFallback, tokens: seq<string>, mask: Option<seq<bool>>, i: Token, b: byte)
    requires IsFallback(t, tokens, mask)
    ensures i in t.tokenToByte && t.tokenToByte[i] == b <==> i < |tokens| && CanonicalByte(tokens[i]) == Some(b)
    ensures Complete(tokens) ==>
              (b in t.byteToToken && t.byteToToken[b] == i <==>
                 Usable(tokens, mask, i) && CanonicalByte(tokens[i]) == Some(b))
  {
    hide CanonicalByte;
    if i in t.tokenToByte {
      assert Spells(tokens, i, t.tokenToByte[i]);
    }
    if b in t.byteToToken {
      assert Spells(tokens, t.byteToToken[b], b);
    }
    assert Spells(tokens, i, b) <==> i < |tokens| && CanonicalByte(tokens[i]) == Some(b);
  }

  lemma PairTables(t: ByteBpe, tokens: seq<string>, merges: seq<string>, mask: Option<seq<bool>>, i: Token, b: byte)
    requires IsBpe(t, tokens, merges, mask)
    ensures i in t.tokenToBytes <==> i < |tokens|
    ensures i < |tokens| ==> t.tokenToBytes[i] == PieceBytes(tokens[i])
    ensures b in t.byteToToken && t.byteToToken[b] == i <==> Usable(tokens, mask, i) && PieceBytes(tokens[i]) == [b]
  {
    hide PieceBytes, AreRanks, IsIndex;
    assert Emits(tokens, mask, i, [b]) <==> Usable(tokens, mask, i) && PieceBytes(tokens[i]) == [b];
  }

  /** A merge rule is two words around a single space. */
  lemma MergeRuleIff(merge: string, left: string, right: string)
    ensures ParseMerge(merge) == Some((left, right)) <==>
            merge == left + " " + right && left != "" && right != "" && ' ' !in left && ' ' !in right
  {
    var i := SpaceAt(merge);
    if merge == left + " " + right && left != "" && right != "" && ' ' !in left && ' ' !in right {
      assert merge[|left|] == ' ';
      forall j | 0 <= j < |left|
        ensures merge[j] != ' '
      {
        assert merge[j] == left[j];
      }
      assert i == |left|;
      assert merge[..i] == left && merge[i + 1..] == right;
      NoSpace(right);
    }
    if ParseMerge(merge) == Some((left, right)) {
      NoSpace(left);
      NoSpace(right);
    }
  }

  lemma {:induction false} NoSpace(s: string)
    ensures SpaceAt(s) == |s| <==> ' ' !in s
  {
    if ' ' in s {
      var i :| 0 <= i < |s| && s[i] == ' ';
    }
  }

  /** Three entries that a rule joins: the bytes of the third are those of the two parts, in order. */
  ghost predicate Joins(tokens: seq<string>, mask: Option<seq<bool>>, merge: string, l: Token, r: Token, m: Token) {
    && Usable(tokens, mask, l) && Usable(tokens, mask, r) && Usable(tokens, mask, m)
    && exists left, right ::
         && merge == left + " " + right && left != "" && right != "" && ' ' !in left && ' ' !in right
         && PieceBytes(tokens[l]) == PieceBytes(left) && PieceBytes(tokens[r]) == PieceBytes(right)
         && PieceBytes(tokens[m]) == PieceBytes(left) + PieceBytes(right)
  }

  lemma RuleIff(index: map<seq<byte>, Token>, tokens: seq<string>, mask: Option<seq<bool>>, merge: string, l: Token,
                r: Token, m: Token)
    requires IsIndex(index, tokens, mask, |tokens|)
    ensures RuleOf(index, merge) == Some((l, r, m)) <==> Joins(tokens, mask, merge, l, r, m)
  {
    hide PieceBytes, ParseMerge;
    forall i: Token, piece
      ensures piece in index && index[piece] == i <==> Usable(tokens, mask, i) && PieceBytes(tokens[i]) == piece
    {
      assert Emits(tokens, mask, i, piece) <==> Usable(tokens, mask, i) && PieceBytes(tokens[i]) == piece;
    }
    forall left, right
      ensures ParseMerge(merge) == Some((left, right)) <==>
              merge == left + " " + right && left != "" && right != "" && ' ' !in left && ' ' !in right
    {
      MergeRuleIff(merge, left, right);
    }
    if ParseMerge(merge).Some? {
      var (left, right) := ParseMerge(merge).value;
      assert ParseMerge(merge) == Some((left, right));
    }
  }

  /** The rank of a pair is the position of the rule that joins it, and it becomes the joined entry. */
  lemma PairRanks(t: ByteBpe, tokens: seq<string>, merges: seq<string>, mask: Option<seq<bool>>, l: Token, r: Token,
                  k: nat, m: Token)
    requires IsBpe(t, tokens, merges, mask)
    ensures (l, r) in t.ranks && t.ranks[(l, r)] == (k, m) <==>
            k < |merges| && Joins(tokens, mask, merges[k], l, r, m)
  {
    hide PieceBytes, ParseMerge, Joins, RuleOf, HoldsPieces, HoldsBytes;
    var index :| IsIndex(index, tokens, mask, |tokens|) && AreRanks(t.ranks, index, merges, |merges|);
    if k < |merges| {
      RuleIff(index, tokens, mask, merges[k], l, r, m);
    }
  }

  /** Of the usable entries for some bytes, the first among those of the highest score. */
  lemma MunchTables(t: SentencePiece, tokens: seq<string>, scores: Option<seq<F32>>, mask: Option<seq<bool>>,
                    piece: seq<byte>, i: Token)
    requires IsSentencePiece(t, tokens, scores, mask) && GoodScores(scores, tokens)
    ensures i in t.tokenToBytes <==> i < |tokens|
    ensures i < |tokens| ==> t.tokenToBytes[i] == PieceBytes(tokens[i])
    ensures piece in t.pieces && t.pieces[piece].0 == i <==>
            && |piece| > 1 && Usable(tokens, mask, i) && PieceBytes(tokens[i]) == piece
            && forall j: nat :: Usable(tokens, mask, j) && PieceBytes(tokens[j]) == piece ==>
                 if scores.None? then i <= j
                 else
                   Key(scores.value[j]) < Key(scores.value[i])
                   || (Key(scores.value[j]) == Key(scores.value[i]) && i <= j)
  {
    hide PieceBytes, IsFallback;
    forall j: nat
      ensures Emits(tokens, mask, j, piece) <==> Usable(tokens, mask, j) && PieceBytes(tokens[j]) == piece
    {
    }
    if piece in t.pieces {
      assert Wins(tokens, scores, mask, |tokens|, piece, t.pieces[piece].0);
    }
  }
}
