/** Byte-pair merging: the rank scan that defines it, and the heap over a linked list that computes it. */
module Bpe {
  import opened Outcomes

  type Token = nat

  /** For a pair of adjacent tokens, its rank and the token it merges to. */
  type Ranks = map<(Token, Token), (nat, Token)>

  // ----- the rank scan -----

  predicate Mergeable(ranks: Ranks, ids: seq<Token>, i: nat) {
    i + 1 < |ids| && (ids[i], ids[i + 1]) in ranks
  }

  function RankAt(ranks: Ranks, ids: seq<Token>, i: nat): nat
    requires Mergeable(ranks, ids, i)
  {
    ranks[(ids[i], ids[i + 1])].0
  }

  function MergedAt(ranks: Ranks, ids: seq<Token>, i: nat): Token
    requires Mergeable(ranks, ids, i)
  {
    ranks[(ids[i], ids[i + 1])].1
  }

  /** The leftmost pair of lowest rank. */
  ghost predicate IsBest(ranks: Ranks, ids: seq<Token>, i: nat) {
    && Mergeable(ranks, ids, i)
    && forall j :: 0 <= j < |ids| && Mergeable(ranks, ids, j) ==>
         RankAt(ranks, ids, i) < RankAt(ranks, ids, j)
         || (RankAt(ranks, ids, i) == RankAt(ranks, ids, j) && i <= j)
  }

  /** The best pair that starts before position k. */
  function BestBefore(ranks: Ranks, ids: seq<Token>, k: nat): (r: Option<nat>)
    requires k <= |ids|
    ensures r.None? ==> forall j :: 0 <= j < k ==> !Mergeable(ranks, ids, j)
    ensures r.Some? ==> r.value < k && Mergeable(ranks, ids, r.value)
    ensures r.Some? ==>
              forall j :: 0 <= j < k && Mergeable(ranks, ids, j) ==>
                RankAt(ranks, ids, r.value) < RankAt(ranks, ids, j)
                || (RankAt(ranks, ids, r.value) == RankAt(ranks, ids, j) && r.value <= j)
  {
    if k == 0 then None
    else
      var best := BestBefore(ranks, ids, k - 1);
      if !Mergeable(ranks, ids, k - 1) then best
      else if best.Some? && RankAt(ranks, ids, best.value) <= RankAt(ranks, ids, k - 1) then best
      else Some(k - 1)
  }

  function MergeAt(ranks: Ranks, ids: seq<Token>, i: nat): (r: seq<Token>)
    requires Mergeable(ranks, ids, i)
    ensures |r| == |ids| - 1
  {
    ids[..i] + [MergedAt(ranks, ids, i)] + ids[i + 2..]
  }

  /** Merge the leftmost pair of lowest rank until no pair is left. */
  function RankScan(ranks: Ranks, ids: seq<Token>): seq<Token>
    decreases |ids|
  {
    var best := BestBefore(ranks, ids, |ids|);
    if best.None? then ids else RankScan(ranks, MergeAt(ranks, ids, best.value))
  }

  lemma BestIsUnique(ranks: Ranks, ids: seq<Token>, i: nat)
    requires IsBest(ranks, ids, i)
    ensures BestBefore(ranks, ids, |ids|) == Some(i)
  {
  }

  // ----- the scan on the table alone -----

  /** Of all adjacent pairs in the table, the one at i has the lowest rank, and is the first that has it. */
  ghost predicate IsFirstLowest(ranks: Ranks, ids: seq<Token>, i: nat) {
    && i + 1 < |ids| && (ids[i], ids[i + 1]) in ranks
    && forall j :: 0 <= j < |ids| - 1 && (ids[j], ids[j + 1]) in ranks ==>
         var (here, there) := (ranks[(ids[i], ids[i + 1])].0, ranks[(ids[j], ids[j + 1])].0);
         here < there || (here == there && i <= j)
  }

  /** That pair has become its merged token. */
  ghost predicate IsMerge(ranks: Ranks, ids: seq<Token>, next: seq<Token>) {
    exists i: nat :: IsFirstLowest(ranks, ids, i) && next == ids[..i] + [ranks[(ids[i], ids[i + 1])].1] + ids[i + 2..]
  }

  /** Merge after merge, until no adjacent pair is in the table. */
  ghost predicate IsMerging(ranks: Ranks, lists: seq<seq<Token>>) {
    && lists != [] && (forall k :: 0 <= k < |lists| - 1 ==> IsMerge(ranks, lists[k], lists[k + 1]))
    && var last := lists[|lists| - 1];
       forall i :: 0 <= i < |last| - 1 ==> (last[i], last[i + 1]) !in ranks
  }

  ghost predicate MergesTo(ranks: Ranks, start: seq<Token>, end: seq<Token>) {
    exists lists :: IsMerging(ranks, lists) && lists[0] == start && lists[|lists| - 1] == end
  }

  lemma {:induction false} ScanMergesTo(ranks: Ranks, ids: seq<Token>)
    ensures MergesTo(ranks, ids, RankScan(ranks, ids))
    decreases |ids|
  {
    hide IsMerge;
    var best := BestBefore(ranks, ids, |ids|);
    if best.None? {
      forall i | 0 <= i < |ids| - 1
        ensures (ids[i], ids[i + 1]) !in ranks
      {
        assert !Mergeable(ranks, ids, i);
      }
      assert IsMerging(ranks, [ids]) && [ids][0] == ids;
    } else {
      var next := MergeAt(ranks, ids, best.value);
      BestIsMerge(ranks, ids, best.value);
      ScanMergesTo(ranks, next);
      var lists :| IsMerging(ranks, lists) && lists[0] == next && lists[|lists| - 1] == RankScan(ranks, ids);
      assert forall k :: 0 <= k < |lists| - 1 ==> IsMerge(ranks, lists[k], lists[k + 1]);
      var longer := [ids] + lists;
      forall k | 0 <= k < |longer| - 1
        ensures IsMerge(ranks, longer[k], longer[k + 1])
      {
        assert k > 0 ==> longer[k] == lists[k - 1] && longer[k + 1] == lists[k];
      }
      assert IsMerging(ranks, longer) && longer[0] == ids && longer[|longer| - 1] == RankScan(ranks, ids);
    }
  }

  lemma BestIsMerge(ranks: Ranks, ids: seq<Token>, i: nat)
    requires BestBefore(ranks, ids, |ids|) == Some(i)
    ensures Mergeable(ranks, ids, i) && IsMerge(ranks, ids, MergeAt(ranks, ids, i))
  {
    forall j | 0 <= j < |ids| - 1 && (ids[j], ids[j + 1]) in ranks
      ensures var (here, there) := (ranks[(ids[i], ids[i + 1])].0, ranks[(ids[j], ids[j + 1])].0);
              here < there || (here == there && i <= j)
    {
      assert Mergeable(ranks, ids, j);
    }
    assert IsFirstLowest(ranks, ids, i);
  }

  /** A list merges to one list only. */
  lemma {:induction false} MergesToOne(ranks: Ranks, ids: seq<Token>, end: seq<Token>)
    requires MergesTo(ranks, ids, end)
    ensures end == RankScan(ranks, ids)
    decreases |ids|
  {
    hide IsMerge;
    var lists :| IsMerging(ranks, lists) && lists[0] == ids && lists[|lists| - 1] == end;
    if |lists| == 1 {
      assert forall j :: 0 <= j < |ids| ==> !Mergeable(ranks, ids, j);
    } else {
      assert IsMerge(ranks, lists[0], lists[1]);
      MergeIsBest(ranks, ids, lists[1]);
      var rest := lists[1..];
      forall k | 0 <= k < |rest| - 1
        ensures IsMerge(ranks, rest[k], rest[k + 1])
      {
        assert IsMerge(ranks, lists[k + 1], lists[k + 2]);
      }
      assert IsMerging(ranks, rest) && rest[0] == lists[1] && rest[|rest| - 1] == end;
      MergesToOne(ranks, lists[1], end);
    }
  }

  lemma MergeIsBest(ranks: Ranks, ids: seq<Token>, next: seq<Token>)
    requires IsMerge(ranks, ids, next)
    ensures |next| == |ids| - 1 && RankScan(ranks, next) == RankScan(ranks, ids)
  {
    hide BestBefore;
    var i: nat :| IsFirstLowest(ranks, ids, i) && next == ids[..i] + [ranks[(ids[i], ids[i + 1])].1] + ids[i + 2..];
    FirstLowestIsBest(ranks, ids, i);
    assert next == MergeAt(ranks, ids, i);
  }

  lemma FirstLowestIsBest(ranks: Ranks, ids: seq<Token>, i: nat)
    requires IsFirstLowest(ranks, ids, i)
    ensures Mergeable(ranks, ids, i) && BestBefore(ranks, ids, |ids|) == Some(i)
  {
    hide BestBefore;
    assert IsBest(ranks, ids, i);
    BestIsUnique(ranks, ids, i);
  }

  /** The reference loop of the tests. */
  method TokenizeByRankScan(ranks: Ranks, start: seq<Token>) returns (ids: seq<Token>)
    ensures ids == RankScan(ranks, start)
    ensures MergesTo(ranks, start, ids)
  {
    ScanMergesTo(ranks, start);
    hide MergesTo;
    ids := start;
    while true
      invariant RankScan(ranks, ids) == RankScan(ranks, start)
      decreases |ids|
    {
      var best: Option<nat> := None;
      for i := 0 to |ids|
        invariant best == BestBefore(ranks, ids, i)
      {
        if Mergeable(ranks, ids, i) {
          if best.None? || RankAt(ranks, ids, best.value) > RankAt(ranks, ids, i) {
            best := Some(i);
          }
        }
      }
      if best.None? {
        break;
      }
      ids := MergeAt(ranks, ids, best.value);
    }
  }

  // ----- the heap -----

  /** A candidate merge as it was when it was pushed: rank, left index, merged token. */
  type Entry = (nat, nat, Token)

  predicate AtMost(a: Entry, b: Entry) {
    a.0 < b.0 || (a.0 == b.0 && (a.1 < b.1 || (a.1 == b.1 && a.2 <= b.2)))
  }

  lemma {:induction false} LeastExists(heap: multiset<Entry>)
    requires |heap| > 0
    ensures exists e :: e in heap && forall f :: f in heap ==> AtMost(e, f)
    decreases |heap|
  {
    var e :| e in heap;
    var rest := heap - multiset{e};
    assert forall f :: f in heap ==> f == e || f in rest;
    if |rest| > 0 {
      LeastExists(rest);
      var l :| l in rest && forall f :: f in rest ==> AtMost(l, f);
      if AtMost(e, l) {
        assert forall f :: f in heap ==> AtMost(e, f);
      } else {
        assert forall f :: f in heap ==> AtMost(l, f);
      }
    } else {
      assert forall f :: f in heap ==> AtMost(e, f);
    }
  }

  /** What a binary heap over reversed entries promises of pop. */
  method PopLeast(heap: multiset<Entry>) returns (e: Entry, rest: multiset<Entry>)
    requires |heap| > 0
    ensures e in heap && rest == heap - multiset{e}
    ensures forall f :: f in heap ==> AtMost(e, f)
  {
    LeastExists(heap);
    e :| e in heap && forall f :: f in heap ==> AtMost(e, f);
    rest := heap - multiset{e};
  }

  function PushPair(heap: multiset<Entry>, ranks: Ranks, ids: seq<Token>, left: nat, right: Option<nat>)
    : (r: multiset<Entry>)
    requires left < |ids| && (right.Some? ==> right.value < |ids|)
    ensures heap <= r && |r| <= |heap| + 1
  {
    if right.None? || (ids[left], ids[right.value]) !in ranks then heap
    else heap + multiset{(ranks[(ids[left], ids[right.value])].0, left, ranks[(ids[left], ids[right.value])].1)}
  }

  // ----- the linked list -----

  /** The vectors of the tokenizer's loop. */
  datatype Chain = Chain(ids: seq<Token>, prev: seq<Option<nat>>, next: seq<Option<nat>>, alive: seq<bool>)

  /** `live` lists the indices still in the list, from left to right. */
  ghost predicate Ordered(live: seq<nat>, n: nat) {
    && live != [] && live[0] == 0
    && (forall k :: 0 <= k < |live| ==> live[k] < n)
    && (forall j, k :: 0 <= j < k < |live| ==> live[j] < live[k])
  }

  ghost predicate LinkedNext(live: seq<nat>, next: seq<Option<nat>>)
    requires Ordered(live, |next|)
  {
    && (forall k :: 0 <= k < |live| - 1 ==> next[live[k]] == Some(live[k + 1]))
    && next[live[|live| - 1]] == None
  }

  ghost predicate LinkedPrev(live: seq<nat>, prev: seq<Option<nat>>)
    requires Ordered(live, |prev|)
  {
    && prev[live[0]] == None
    && (forall k :: 0 < k < |live| ==> prev[live[k]] == Some(live[k - 1]))
  }

  ghost predicate Marked(live: seq<nat>, alive: seq<bool>)
    requires Ordered(live, |alive|)
  {
    && (forall k :: 0 <= k < |live| ==> alive[live[k]])
    && (forall i :: 0 <= i < |alive| && alive[i] ==> i in live)
  }

  ghost predicate Linked(live: seq<nat>, c: Chain) {
    && |c.ids| == |c.prev| == |c.next| == |c.alive|
    && Ordered(live, |c.ids|)
    && LinkedNext(live, c.next) && LinkedPrev(live, c.prev) && Marked(live, c.alive)
  }

  /** The tokens in the list. */
  ghost function Listed(ids: seq<Token>, live: seq<nat>): (r: seq<Token>)
    requires forall k :: 0 <= k < |live| ==> live[k] < |ids|
    ensures |r| == |live|
  {
    seq(|live|, k requires 0 <= k < |live| => ids[live[k]])
  }

  /** If the pair at j can merge, its entry is in the heap. */
  ghost predicate HasEntry(heap: multiset<Entry>, ranks: Ranks, list: seq<Token>, live: seq<nat>, j: nat)
    requires j < |live| == |list|
  {
    Mergeable(ranks, list, j) ==> (RankAt(ranks, list, j), live[j], MergedAt(ranks, list, j)) in heap
  }

  /** Every pair that can merge now has an entry; there may be stale ones besides. */
  ghost predicate Covered(heap: multiset<Entry>, ranks: Ranks, ids: seq<Token>, live: seq<nat>)
    requires forall k :: 0 <= k < |live| ==> live[k] < |ids|
  {
    forall k :: 0 <= k < |live| ==> HasEntry(heap, ranks, Listed(ids, live), live, k)
  }

  ghost predicate InRange(heap: multiset<Entry>, n: nat) {
    forall e :: e in heap ==> e.1 < n
  }

  /** `live` without the node after position k. */
  function Without(live: seq<nat>, k: nat): (r: seq<nat>)
    requires k + 1 < |live|
    ensures |r| == |live| - 1
    ensures forall j :: 0 <= j < |r| ==> r[j] == live[if j <= k then j else j + 1]
  {
    live[..k + 1] + live[k + 2..]
  }

  /** The least entry, if it describes a pair still in the list, describes the pair the rank scan merges. */
  lemma LeastIsBest(heap: multiset<Entry>, ranks: Ranks, ids: seq<Token>, live: seq<nat>, k: nat, e: Entry)
    requires forall k :: 0 <= k < |live| ==> live[k] < |ids|
    requires forall i, j :: 0 <= i < j < |live| ==> live[i] < live[j]
    requires Covered(heap, ranks, ids, live) && k < |live| && Mergeable(ranks, Listed(ids, live), k)
    requires forall f :: f in heap ==> AtMost(e, f)
    requires e.0 == RankAt(ranks, Listed(ids, live), k) && e.1 == live[k]
    ensures IsBest(ranks, Listed(ids, live), k)
  {
    var list := Listed(ids, live);
    forall j | 0 <= j < |list| && Mergeable(ranks, list, j)
      ensures RankAt(ranks, list, k) < RankAt(ranks, list, j)
              || (RankAt(ranks, list, k) == RankAt(ranks, list, j) && k <= j)
    {
      var f := (RankAt(ranks, list, j), live[j], MergedAt(ranks, list, j));
      assert HasEntry(heap, ranks, list, live, j);
      assert AtMost(e, f);
      assert j < k ==> live[j] < live[k];
    }
  }

  lemma ListedAfterMerge(ranks: Ranks, ids: seq<Token>, live: seq<nat>, k: nat)
    requires forall k :: 0 <= k < |live| ==> live[k] < |ids|
    requires forall i, j :: 0 <= i < j < |live| ==> live[i] < live[j]
    requires Mergeable(ranks, Listed(ids, live), k)
    ensures Listed(ids[live[k] := MergedAt(ranks, Listed(ids, live), k)], Without(live, k)) ==
            MergeAt(ranks, Listed(ids, live), k)
  {
    var list := Listed(ids, live);
    var after := Listed(ids[live[k] := MergedAt(ranks, list, k)], Without(live, k));
    var merged := MergeAt(ranks, list, k);
    forall j | 0 <= j < |after|
      ensures after[j] == merged[j]
    {
      if j < k {
        assert live[j] < live[k];
      } else if j > k {
        assert live[k] < live[j + 1];
      }
    }
  }

  /** Merging at a node: it takes the merged token and its right neighbour leaves the list. */
  function Unlink(c: Chain, index: nat, right: nat, merged: Token): Chain
    requires |c.ids| == |c.prev| == |c.next| == |c.alive|
    requires index < |c.ids| && right < |c.ids|
    requires c.next[right].Some? ==> c.next[right].value < |c.ids|
  {
    var after := c.next[right];
    Chain(c.ids[index := merged],
          if after.Some? then c.prev[after.value := Some(index)] else c.prev,
          c.next[index := after],
          c.alive[right := false])
  }

  lemma OrderedAfterMerge(live: seq<nat>, n: nat, k: nat)
    requires Ordered(live, n) && k + 1 < |live|
    ensures Ordered(Without(live, k), n)
  {
  }

  lemma NextAfterMerge(live: seq<nat>, next: seq<Option<nat>>, k: nat)
    requires Ordered(live, |next|) && LinkedNext(live, next) && k + 1 < |live|
    ensures Ordered(Without(live, k), |next|)
    ensures LinkedNext(Without(live, k), next[live[k] := next[live[k + 1]]])
  {
    forall j | 0 <= j < |live| && j != k
      ensures live[j] != live[k]
    {
      assert j < k ==> live[j] < live[k];
    }
  }

  lemma PrevAfterMerge(live: seq<nat>, prev: seq<Option<nat>>, k: nat)
    requires Ordered(live, |prev|) && LinkedPrev(live, prev) && k + 1 < |live|
    ensures Ordered(Without(live, k), |prev|)
    ensures LinkedPrev(Without(live, k), if k + 2 < |live| then prev[live[k + 2] := Some(live[k])] else prev)
  {
    OrderedAfterMerge(live, |prev|, k);
    var rest := Without(live, k);
    var prev' := if k + 2 < |live| then prev[live[k + 2] := Some(live[k])] else prev;
    forall j | 0 < j < |rest|
      ensures prev'[rest[j]] == Some(rest[j - 1])
    {
      if j <= k {
        assert k + 2 < |live| ==> live[j] < live[k + 2];
        assert rest[j] == live[j] && rest[j - 1] == live[j - 1];
      } else if j == k + 1 {
        assert rest[j] == live[k + 2] && rest[j - 1] == live[k];
      } else {
        assert live[k + 2] < live[j + 1];
        assert rest[j] == live[j + 1] && rest[j - 1] == live[j];
      }
    }
    assert k + 2 < |live| ==> live[0] < live[k + 2];
    assert LinkedPrev(rest, prev');
  }

  lemma MarkedAfterMerge(live: seq<nat>, alive: seq<bool>, k: nat)
    requires Ordered(live, |alive|) && Marked(live, alive) && k + 1 < |live|
    ensures Ordered(Without(live, k), |alive|)
    ensures Marked(Without(live, k), alive[live[k + 1] := false])
  {
    OrderedAfterMerge(live, |alive|, k);
    var rest, alive' := Without(live, k), alive[live[k + 1] := false];
    forall i | 0 <= i < |alive| && alive'[i]
      ensures i in rest
    {
      var j :| 0 <= j < |live| && live[j] == i;
      assert rest[if j <= k then j else j - 1] == i;
    }
    forall j | 0 <= j < |rest|
      ensures alive'[rest[j]]
    {
      assert j <= k ==> live[j] < live[k + 1];
      assert j > k ==> live[k + 1] < live[j + 1];
    }
  }

  /** Unlinking the right node of a merge leaves a well-linked list. */
  lemma LinkedAfterMerge(live: seq<nat>, c: Chain, k: nat, merged: Token)
    requires Linked(live, c) && k + 1 < |live|
    ensures c.next[live[k + 1]] == if k + 2 < |live| then Some(live[k + 2]) else None
    ensures Linked(Without(live, k), Unlink(c, live[k], live[k + 1], merged))
  {
    NextAfterMerge(live, c.next, k);
    PrevAfterMerge(live, c.prev, k);
    MarkedAfterMerge(live, c.alive, k);
  }

  lemma FarTokens(ranks: Ranks, list: seq<Token>, k: nat, j: nat)
    requires Mergeable(ranks, list, k) && (j + 1 < k || j > k) && j + 1 < |MergeAt(ranks, list, k)|
    ensures var list', i := MergeAt(ranks, list, k), if j < k then j else j + 1;
            i + 1 < |list| && list'[j] == list[i] && list'[j + 1] == list[i + 1]
  {
  }

  lemma OthersRemain(heap: multiset<Entry>, e: Entry, x: Entry)
    requires x in heap && x.1 != e.1
    ensures x in heap - multiset{e}
  {
  }

  /** The pair at j, away from the merge, has the entry it had before. */
  lemma FarPairKeepsEntry(heap: multiset<Entry>, ranks: Ranks, ids: seq<Token>, live: seq<nat>, k: nat, e: Entry,
                          j: nat)
    requires forall k :: 0 <= k < |live| ==> live[k] < |ids|
    requires forall i, j :: 0 <= i < j < |live| ==> live[i] < live[j]
    requires Covered(heap, ranks, ids, live) && Mergeable(ranks, Listed(ids, live), k)
    requires e.1 == live[k] && (j + 1 < k || j > k)
    ensures j < |live| - 1 ==>
              HasEntry(heap - multiset{e}, ranks, MergeAt(ranks, Listed(ids, live), k), Without(live, k), j)
  {
    var list, list' := Listed(ids, live), MergeAt(ranks, Listed(ids, live), k);
    hide Listed, MergeAt;
    if Mergeable(ranks, list', j) {
      FarTokens(ranks, list, k, j);
      var i := if j < k then j else j + 1;
      assert Mergeable(ranks, list, i) && HasEntry(heap, ranks, list, live, i);
      assert live[i] != live[k];
      OthersRemain(heap, e, (RankAt(ranks, list, i), live[i], MergedAt(ranks, list, i)));
    }
  }

  lemma PushedPair(heap: multiset<Entry>, ranks: Ranks, ids: seq<Token>, live: seq<nat>, j: nat)
    requires forall k :: 0 <= k < |live| ==> live[k] < |ids|
    requires j < |live|
    ensures var list := Listed(ids, live);
            var h := PushPair(heap, ranks, ids, live[j], if j + 1 < |live| then Some(live[j + 1]) else None);
            HasEntry(h, ranks, list, live, j)
  {
  }

  /** Re-pushing the two pairs around the merged token keeps every current pair covered. */
  lemma CoveredAfterMerge(heap: multiset<Entry>, ranks: Ranks, ids: seq<Token>, live: seq<nat>, k: nat, e: Entry)
    requires forall k :: 0 <= k < |live| ==> live[k] < |ids|
    requires forall i, j :: 0 <= i < j < |live| ==> live[i] < live[j]
    requires Covered(heap, ranks, ids, live) && Mergeable(ranks, Listed(ids, live), k)
    requires e.1 == live[k]
    ensures var merged := ids[live[k] := MergedAt(ranks, Listed(ids, live), k)];
            var rest := Without(live, k);
            var h0 := heap - multiset{e};
            var h1 := if k > 0 then PushPair(h0, ranks, merged, rest[k - 1], Some(rest[k])) else h0;
            Covered(PushPair(h1, ranks, merged, rest[k], if k + 1 < |rest| then Some(rest[k + 1]) else None),
                    ranks, merged, rest)
  {
    hide PushPair, MergeAt, RankAt, MergedAt, Listed, Covered;
    var merged := ids[live[k] := MergedAt(ranks, Listed(ids, live), k)];
    var rest := Without(live, k);
    var h0 := heap - multiset{e};
    var h1 := if k > 0 then PushPair(h0, ranks, merged, rest[k - 1], Some(rest[k])) else h0;
    var h2 := PushPair(h1, ranks, merged, rest[k], if k + 1 < |rest| then Some(rest[k + 1]) else None);
    ListedAfterMerge(ranks, ids, live, k);
    PushedPair(h1, ranks, merged, rest, k);
    if k > 0 {
      PushedPair(h0, ranks, merged, rest, k - 1);
    }
    forall j | 0 <= j < |rest| && (j + 1 < k || j > k)
      ensures HasEntry(h0, ranks, Listed(merged, rest), rest, j)
    {
      FarPairKeepsEntry(heap, ranks, ids, live, k, e, j);
    }
    PairsCovered(h0, h1, h2, ranks, merged, rest, k);
  }

  lemma PairsCovered(h0: multiset<Entry>, h1: multiset<Entry>, h2: multiset<Entry>, ranks: Ranks, ids: seq<Token>,
                     live: seq<nat>, k: nat)
    requires forall j :: 0 <= j < |live| ==> live[j] < |ids|
    requires h0 <= h1 <= h2 && k < |live|
    requires forall j :: 0 <= j < |live| && (j + 1 < k || j > k) ==> HasEntry(h0, ranks, Listed(ids, live), live, j)
    requires k > 0 ==> HasEntry(h1, ranks, Listed(ids, live), live, k - 1)
    requires HasEntry(h2, ranks, Listed(ids, live), live, k)
    ensures Covered(h2, ranks, ids, live)
  {
    hide Listed, RankAt, MergedAt;
    var list := Listed(ids, live);
    forall j | 0 <= j < |live|
      ensures HasEntry(h2, ranks, list, live, j)
    {
      if j + 1 == k {
        EntryPersists(h1, h2, ranks, list, live, j);
      } else if j != k {
        EntryPersists(h0, h2, ranks, list, live, j);
      }
    }
  }

  lemma EntryPersists(h: multiset<Entry>, h': multiset<Entry>, ranks: Ranks, list: seq<Token>, live: seq<nat>, j: nat)
    requires j < |live| == |list| && h <= h' && HasEntry(h, ranks, list, live, j)
    ensures HasEntry(h', ranks, list, live, j)
  {
    hide RankAt, MergedAt;
  }

  /** A popped entry that does not describe the pair now at its index is not needed. */
  lemma StaleIsNotNeeded(heap: multiset<Entry>, ranks: Ranks, ids: seq<Token>, live: seq<nat>, e: Entry)
    requires forall k :: 0 <= k < |live| ==> live[k] < |ids|
    requires Covered(heap, ranks, ids, live)
    requires forall k :: 0 <= k < |live| && live[k] == e.1 && Mergeable(ranks, Listed(ids, live), k) ==>
               (RankAt(ranks, Listed(ids, live), k), MergedAt(ranks, Listed(ids, live), k)) != (e.0, e.2)
    ensures Covered(heap - multiset{e}, ranks, ids, live)
  {
    var list := Listed(ids, live);
    forall k | 0 <= k < |live|
      ensures HasEntry(heap - multiset{e}, ranks, list, live, k)
    {
      assert HasEntry(heap, ranks, list, live, k);
    }
  }

  lemma Neighbours(live: seq<nat>, c: Chain, k: nat)
    requires Linked(live, c) && k < |live|
    ensures live[k] < |c.ids| && c.alive[live[k]]
    ensures c.prev[live[k]] == if k > 0 then Some(live[k - 1]) else None
    ensures c.next[live[k]] == if k + 1 < |live| then Some(live[k + 1]) else None
  {
  }

  /** A live node with a right neighbour, and its place in the list. */
  lemma FindNode(live: seq<nat>, c: Chain, index: nat) returns (k: nat)
    requires Linked(live, c) && index < |c.ids| && c.alive[index] && c.next[index].Some?
    ensures k + 1 < |live| && live[k] == index && c.next[index] == Some(live[k + 1])
    ensures live[k + 1] < |c.ids| && c.alive[live[k + 1]]
    ensures forall j :: 0 <= j < |live| && live[j] == index ==> j == k
  {
    k :| 0 <= k < |live| && live[k] == index;
    Neighbours(live, c, k);
  }

  lemma NoPairAt(ranks: Ranks, live: seq<nat>, c: Chain, index: nat)
    requires Linked(live, c) && index < |c.ids| && (!c.alive[index] || c.next[index].None?)
    ensures forall k :: 0 <= k < |live| && live[k] == index ==> !Mergeable(ranks, Listed(c.ids, live), k)
  {
  }

  // ----- the tokenizer's loop -----

  /** What holds between two pops. */
  ghost predicate LoopInv(ranks: Ranks, c: Chain, heap: multiset<Entry>, live: seq<nat>) {
    && Linked(live, c)
    && Covered(heap, ranks, c.ids, live)
    && InRange(heap, |c.ids|)
  }

  ghost predicate SameResult(ranks: Ranks, c: Chain, live: seq<nat>, c': Chain, live': seq<nat>)
    requires Linked(live, c) && Linked(live', c')
  {
    RankScan(ranks, Listed(c'.ids, live')) == RankScan(ranks, Listed(c.ids, live))
  }

  /** One popped entry: discarded if it is stale, otherwise merged and its neighbours pushed. */
  method HandleEntry(ranks: Ranks, c: Chain, e: Entry, rest: multiset<Entry>, ghost heap: multiset<Entry>,
                     ghost live: seq<nat>)
    returns (c': Chain, heap': multiset<Entry>, ghost live': seq<nat>)
    requires LoopInv(ranks, c, heap, live)
    requires e in heap && rest == heap - multiset{e} && forall f :: f in heap ==> AtMost(e, f)
    ensures LoopInv(ranks, c', heap', live') && |c'.ids| == |c.ids|
    ensures SameResult(ranks, c, live, c', live')
    ensures |heap'| + 2 * |live'| < |heap| + 2 * |live|
  {
    var index := e.1;
    c', heap', live' := c, rest, live;
    if !c.alive[index] || c.next[index].None? {
      NoPairAt(ranks, live, c, index);
      StaleIsNotNeeded(heap, ranks, c.ids, live, e);
      return;
    }
    ghost var k := FindNode(live, c, index);
    var right := c.next[index].value;
    if !c.alive[right] || (c.ids[index], c.ids[right]) !in ranks || ranks[(c.ids[index], c.ids[right])] != (e.0, e.2) {
      StaleIsNotNeeded(heap, ranks, c.ids, live, e);
      return;
    }
    c', heap', live' := MergeNode(ranks, c, e, rest, heap, live, k);
  }

  /** The popped entry describes the pair at position k. */
  method MergeNode(ranks: Ranks, c: Chain, e: Entry, rest: multiset<Entry>, ghost heap: multiset<Entry>,
                   ghost live: seq<nat>, ghost k: nat)
    returns (c': Chain, heap': multiset<Entry>, ghost live': seq<nat>)
    requires LoopInv(ranks, c, heap, live)
    requires e in heap && rest == heap - multiset{e} && forall f :: f in heap ==> AtMost(e, f)
    requires k + 1 < |live| && live[k] == e.1 && c.next[live[k]] == Some(live[k + 1])
    requires Mergeable(ranks, Listed(c.ids, live), k)
    requires (e.0, e.2) == (RankAt(ranks, Listed(c.ids, live), k), MergedAt(ranks, Listed(c.ids, live), k))
    ensures LoopInv(ranks, c', heap', live') && |c'.ids| == |c.ids|
    ensures SameResult(ranks, c, live, c', live')
    ensures |heap'| + 2 * |live'| < |heap| + 2 * |live|
  {
    hide Covered, LinkedNext, LinkedPrev, Marked, RankScan;
    var index, right := e.1, c.next[e.1].value;
    LinkedAfterMerge(live, c, k, e.2);
    c' := Unlink(c, index, right, e.2);
    live' := Without(live, k);
    Neighbours(live', c', k);
    CoveredAfterMerge(heap, ranks, c.ids, live, k, e);
    MergedIsScanned(ranks, c, heap, live, k, e);

    heap' := rest;
    if c'.prev[index].Some? {
      heap' := PushPair(heap', ranks, c'.ids, c'.prev[index].value, Some(index));
    }
    heap' := PushPair(heap', ranks, c'.ids, index, c'.next[index]);
  }

  /** The merge the heap chooses is the first one the rank scan makes. */
  lemma MergedIsScanned(ranks: Ranks, c: Chain, heap: multiset<Entry>, live: seq<nat>, k: nat, e: Entry)
    requires LoopInv(ranks, c, heap, live) && forall f :: f in heap ==> AtMost(e, f)
    requires k + 1 < |live| && live[k] == e.1 && Mergeable(ranks, Listed(c.ids, live), k)
    requires (e.0, e.2) == (RankAt(ranks, Listed(c.ids, live), k), MergedAt(ranks, Listed(c.ids, live), k))
    ensures forall j :: 0 <= j < |Without(live, k)| ==> Without(live, k)[j] < |c.ids|
    ensures RankScan(ranks, Listed(c.ids[e.1 := e.2], Without(live, k))) == RankScan(ranks, Listed(c.ids, live))
  {
    LeastIsBest(heap, ranks, c.ids, live, k, e);
    BestIsUnique(ranks, Listed(c.ids, live), k);
    ListedAfterMerge(ranks, c.ids, live, k);
  }

  method Build(start: seq<Token>) returns (c: Chain, ghost live: seq<nat>)
    requires start != []
    ensures c.ids == start && |live| == |start| && Linked(live, c) && Listed(c.ids, live) == start
    ensures forall i :: 0 <= i < |live| ==> live[i] == i
  {
    var n := |start|;
    c := Chain(start,
               seq(n, i requires 0 <= i < n => if i == 0 then None else Some(i - 1)),
               seq(n, i requires 0 <= i < n => if i + 1 == n then None else Some(i + 1)),
               seq(n, _ => true));
    live := seq(n, i requires 0 <= i < n => i);
    forall i | 0 <= i < n
      ensures i in live
    {
      assert live[i] == i;
    }
  }

  method Seed(ranks: Ranks, ids: seq<Token>) returns (heap: multiset<Entry>)
    requires ids != []
    ensures |heap| <= |ids| - 1 && InRange(heap, |ids|)
    ensures forall k :: 0 <= k < |ids| && Mergeable(ranks, ids, k) ==>
              (RankAt(ranks, ids, k), k, MergedAt(ranks, ids, k)) in heap
  {
    heap := multiset{};
    for i := 0 to |ids| - 1
      invariant |heap| <= i && InRange(heap, |ids|)
      invariant forall k :: 0 <= k < i && Mergeable(ranks, ids, k) ==>
                  (RankAt(ranks, ids, k), k, MergedAt(ranks, ids, k)) in heap
    {
      heap := PushPair(heap, ranks, ids, i, Some(i + 1));
    }
  }

  /** Walk the list from its first node. */
  method ReadOut(c: Chain, ghost live: seq<nat>) returns (out: seq<Token>)
    requires Linked(live, c)
    ensures out == Listed(c.ids, live)
  {
    out := [];
    var cursor := Some(0);
    ghost var k := 0;
    while cursor.Some?
      invariant 0 <= k <= |live|
      invariant cursor == if k < |live| then Some(live[k]) else None
      invariant out == Listed(c.ids, live)[..k]
      decreases |live| - k
    {
      var i := cursor.value;
      if c.alive[i] {
        out := out + [c.ids[i]];
      }
      cursor := c.next[i];
      k := k + 1;
    }
  }

  /** Merging with a heap that is never cleaned up: the rank scan's tokens, in at most 3(n - 1) pops. */
  method MergeByHeap(ranks: Ranks, start: seq<Token>) returns (out: seq<Token>, ghost pops: nat)
    ensures out == RankScan(ranks, start)
    ensures MergesTo(ranks, start, out)
    ensures pops <= if start == [] then 0 else 3 * (|start| - 1)
  {
    ScanMergesTo(ranks, start);
    hide MergesTo;
    pops := 0;
    if |start| < 2 {
      return start, 0;
    }
    var n := |start|;
    ghost var live;
    var c: Chain;
    c, live := Build(start);
    var heap := Seed(ranks, start);

    while |heap| > 0
      invariant LoopInv(ranks, c, heap, live) && |c.ids| == n
      invariant RankScan(ranks, Listed(c.ids, live)) == RankScan(ranks, start)
      invariant pops + |heap| + 2 * (|live| - 1) <= 3 * (n - 1)
      decreases |heap| + 2 * |live|
    {
      var e, rest := PopLeast(heap);
      pops := pops + 1;
      c, heap, live := HandleEntry(ranks, c, e, rest, heap, live);
    }
    NoPairLeft(ranks, c.ids, live);
    out := ReadOut(c, live);
  }

  lemma NoPairLeft(ranks: Ranks, ids: seq<Token>, live: seq<nat>)
    requires forall k :: 0 <= k < |live| ==> live[k] < |ids|
    requires Covered(multiset{}, ranks, ids, live)
    ensures RankScan(ranks, Listed(ids, live)) == Listed(ids, live)
  {
    forall k | 0 <= k < |live|
      ensures !Mergeable(ranks, Listed(ids, live), k)
    {
      assert HasEntry(multiset{}, ranks, Listed(ids, live), live, k);
    }
  }
}
