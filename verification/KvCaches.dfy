/** The key and value buffers: one flat vector each, cut into slots by layer, head and position. */
module KvCaches {
  import opened Bits
  import opened Outcomes
  import opened Floats
  import opened Llama

  /** The key and value vectors a layer computed for one position. */
  datatype Row = Row(k: Vec, v: Vec)

  // ----- slots -----

  /** The slot of a layer, head and position, in the order the buffers are laid out. */
  function SlotIndex(c: Config, layer: nat, head: nat, pos: nat): nat {
    (layer * c.headCountKv + head) * c.contextLength + pos
  }

  function SlotCount(c: Config): nat {
    c.blockCount * c.headCountKv * c.contextLength
  }

  predicate InCache(c: Config, layer: nat, head: nat, pos: nat) {
    layer < c.blockCount && head < c.headCountKv && pos < c.contextLength
  }

  lemma MixedRadix(a: nat, b: nat, n: nat, m: nat)
    requires a < n && b < m
    ensures a * m + b < n * m
  {
    ProductMonotone(m, a + 1, n);
    assert (a + 1) * m == a * m + m;
  }

  lemma SlotInRange(c: Config, layer: nat, head: nat, pos: nat)
    requires InCache(c, layer, head, pos)
    ensures SlotIndex(c, layer, head, pos) < SlotCount(c)
  {
    MixedRadix(layer, head, c.blockCount, c.headCountKv);
    MixedRadix(layer * c.headCountKv + head, pos, c.blockCount * c.headCountKv, c.contextLength);
  }

  lemma DigitsUnique(a: nat, b: nat, a': nat, b': nat, m: nat)
    requires b < m && b' < m && a * m + b == a' * m + b'
    ensures a == a' && b == b'
  {
    QuotientUnique(a * m + b, m, a, b);
    QuotientUnique(a' * m + b', m, a', b');
  }

  /** No two slots coincide. */
  lemma SlotsDistinct(c: Config, layer: nat, head: nat, pos: nat, layer': nat, head': nat, pos': nat)
    requires InCache(c, layer, head, pos) && InCache(c, layer', head', pos')
    requires SlotIndex(c, layer, head, pos) == SlotIndex(c, layer', head', pos')
    ensures layer == layer' && head == head' && pos == pos'
  {
    var a, a' := layer * c.headCountKv + head, layer' * c.headCountKv + head';
    assert a == a' && pos == pos' by {
      DigitsUnique(a, pos, a', pos', c.contextLength);
    }
    DigitsUnique(layer, head, layer', head', c.headCountKv);
  }

  lemma SlotFits(s: nat, n: nat, hd: nat)
    requires s < n
    ensures 0 <= s * hd <= s * hd + hd <= n * hd
  {
    ProductMonotone(hd, s + 1, n);
    assert (s + 1) * hd == s * hd + hd;
    assert s * hd >= 0;
  }

  /** The contents of slot s of a buffer of n slots. */
  function SlotAt(buf: Vec, n: nat, hd: nat, s: nat): (r: Vec)
    requires |buf| == n * hd && s < n
    ensures |r| == hd
  {
    SlotFits(s, n, hd);
    buf[s * hd..s * hd + hd]
  }

  function WriteSlot(buf: Vec, n: nat, hd: nat, s: nat, src: Vec): (r: Vec)
    requires |buf| == n * hd && s < n && |src| == hd
    ensures |r| == |buf|
  {
    SlotFits(s, n, hd);
    buf[..s * hd] + src + buf[s * hd + hd..]
  }

  lemma SlotsApart(s: nat, t: nat, hd: nat)
    requires s < t
    ensures s * hd + hd <= t * hd
  {
    ProductMonotone(hd, s + 1, t);
    assert (s + 1) * hd == s * hd + hd;
  }

  lemma ReplacedPart(buf: Vec, a: nat, src: Vec, b: nat)
    requires a + |src| <= |buf| && b + |src| <= |buf|
    requires a == b || a + |src| <= b || b + |src| <= a
    ensures (buf[..a] + src + buf[a + |src|..])[b..b + |src|] == if a == b then src else buf[b..b + |src|]
  {
  }

  lemma WriteThenRead(buf: Vec, n: nat, hd: nat, s: nat, src: Vec, t: nat)
    requires |buf| == n * hd && s < n && |src| == hd && t < n
    ensures SlotAt(WriteSlot(buf, n, hd, s, src), n, hd, t) == if t == s then src else SlotAt(buf, n, hd, t)
  {
    SlotFits(s, n, hd);
    SlotFits(t, n, hd);
    if t < s {
      SlotsApart(t, s, hd);
    } else if s < t {
      SlotsApart(s, t, hd);
    }
    ReplacedPart(buf, s * hd, src, t * hd);
    if s * hd == t * hd && s != t {
      assert hd == 0;
    }
  }

  /** Extending the written part of a buffer by one slot. */
  lemma WrittenThrough(buf: Vec, heads: nat, hd: nat, h: nat, src: Vec)
    requires |buf| == heads * hd && h < heads && |src| == hd
    ensures 0 <= h * hd && h * hd + hd == (h + 1) * hd <= |buf|
    ensures WriteSlot(buf, heads, hd, h, src)[..(h + 1) * hd] == buf[..h * hd] + src
  {
    SlotFits(h, heads, hd);
    assert (h + 1) * hd == h * hd + hd;
  }

  /** Head h of a vector that holds one piece of hd elements per head. */
  function HeadOf(x: Vec, heads: nat, hd: nat, h: nat): (r: Vec)
    requires |x| == heads * hd && h < heads
    ensures |r| == hd
  {
    SlotAt(x, heads, hd, h)
  }

  // ----- windows -----

  /** One head of consecutive vectors, laid end to end. */
  function Window(vecs: seq<Vec>, heads: nat, hd: nat, h: nat): (r: Vec)
    requires h < heads && forall i :: 0 <= i < |vecs| ==> |vecs[i]| == heads * hd
    ensures |r| == |vecs| * hd
    decreases |vecs|
  {
    if vecs == [] then []
    else
      var n := |vecs| - 1;
      assert n * hd + hd == |vecs| * hd;
      Window(vecs[..n], heads, hd, h) + HeadOf(vecs[n], heads, hd, h)
  }

  /** A buffer that holds, for one layer, the given vectors at positions 0, 1, ...; later positions are arbitrary. */
  ghost predicate Holds(c: Config, buf: Vec, hd: nat, layer: nat, vecs: seq<Vec>) {
    && layer < c.blockCount && |vecs| <= c.contextLength && c.headCountKv > 0
    && |buf| == SlotCount(c) * hd
    && (forall i :: 0 <= i < |vecs| ==> |vecs[i]| == c.headCountKv * hd)
    && forall h, p :: 0 <= h < c.headCountKv && 0 <= p < |vecs| ==> HoldsAt(c, buf, hd, layer, vecs, h, p)
  }

  ghost predicate HoldsAt(c: Config, buf: Vec, hd: nat, layer: nat, vecs: seq<Vec>, h: nat, p: nat)
    requires InCache(c, layer, h, p) && |buf| == SlotCount(c) * hd && p < |vecs|
    requires |vecs[p]| == c.headCountKv * hd
  {
    SlotInRange(c, layer, h, p);
    SlotAt(buf, SlotCount(c), hd, SlotIndex(c, layer, h, p)) == HeadOf(vecs[p], c.headCountKv, hd, h)
  }

  /** The stretch of a buffer that `prefix` returns. */
  function PrefixOf(c: Config, buf: Vec, hd: nat, layer: nat, h: nat, len: nat): (r: Vec)
    requires InCache(c, layer, h, 0) && len <= c.contextLength && |buf| == SlotCount(c) * hd
    ensures |r| == len * hd
  {
    PrefixFits(c, hd, layer, h, len);
    var start := SlotIndex(c, layer, h, 0) * hd;
    buf[start..start + len * hd]
  }

  lemma PrefixFits(c: Config, hd: nat, layer: nat, h: nat, len: nat)
    requires InCache(c, layer, h, 0) && len <= c.contextLength
    ensures 0 <= SlotIndex(c, layer, h, 0) * hd
    ensures SlotIndex(c, layer, h, 0) * hd + len * hd <= SlotCount(c) * hd
    ensures 0 <= len * hd
  {
    var s := SlotIndex(c, layer, h, 0);
    if len > 0 {
      SlotInRange(c, layer, h, len - 1);
      assert SlotIndex(c, layer, h, len - 1) == s + (len - 1);
    } else {
      SlotInRange(c, layer, h, 0);
    }
    assert s + len <= SlotCount(c);
    ProductMonotone(hd, s + len, SlotCount(c));
    assert (s + len) * hd == s * hd + len * hd;
    assert s * hd >= 0 && len * hd >= 0;
  }

  /** The prefix of a buffer is the window over the vectors it holds. */
  lemma {:induction false} PrefixIsWindow(c: Config, buf: Vec, hd: nat, layer: nat, vecs: seq<Vec>, h: nat, len: nat)
    requires Holds(c, buf, hd, layer, vecs) && h < c.headCountKv && len <= |vecs|
    requires InCache(c, layer, h, 0)
    ensures PrefixOf(c, buf, hd, layer, h, len) == Window(vecs[..len], c.headCountKv, hd, h)
    decreases len
  {
    if len == 0 {
      assert PrefixOf(c, buf, hd, layer, h, 0) == [];
    } else {
      var p := len - 1;
      PrefixIsWindow(c, buf, hd, layer, vecs, h, p);
      SlotInRange(c, layer, h, p);
      assert HoldsAt(c, buf, hd, layer, vecs, h, p);
      PrefixGrows(c, buf, hd, layer, h, p);
      assert vecs[..len][..p] == vecs[..p];
    }
  }

  lemma PrefixGrows(c: Config, buf: Vec, hd: nat, layer: nat, h: nat, p: nat)
    requires InCache(c, layer, h, p) && |buf| == SlotCount(c) * hd
    ensures SlotIndex(c, layer, h, p) < SlotCount(c)
    ensures PrefixOf(c, buf, hd, layer, h, p + 1) ==
            PrefixOf(c, buf, hd, layer, h, p) + SlotAt(buf, SlotCount(c), hd, SlotIndex(c, layer, h, p))
  {
    SlotInRange(c, layer, h, p);
    PrefixFits(c, hd, layer, h, p + 1);
    var s := SlotIndex(c, layer, h, 0);
    assert SlotIndex(c, layer, h, p) == s + p;
    hide SlotIndex, SlotCount;
    Distribute(s, p, hd);
    Slices(buf, s * hd, p * hd, hd);
  }

  lemma Distribute(s: nat, p: nat, hd: nat)
    ensures (s + p) * hd == s * hd + p * hd
    ensures (p + 1) * hd == p * hd + hd
    ensures 0 <= s * hd && 0 <= p * hd
  {
  }

  lemma Slices(buf: Vec, start: nat, len: nat, more: nat)
    requires start + len + more <= |buf|
    ensures buf[start..start + (len + more)] == buf[start..start + len] + buf[start + len..start + len + more]
  {
  }

  // ----- storing a row -----

  /** The buffer after the first n heads of a vector have been copied to their slots. */
  function StoreHeads(c: Config, buf: Vec, hd: nat, layer: nat, pos: nat, vec: Vec, n: nat): (r: Vec)
    requires layer < c.blockCount && pos < c.contextLength && n <= c.headCountKv
    requires |buf| == SlotCount(c) * hd && |vec| == c.headCountKv * hd
    ensures |r| == |buf|
  {
    if n == 0 then buf
    else
      SlotInRange(c, layer, n - 1, pos);
      WriteSlot(StoreHeads(c, buf, hd, layer, pos, vec, n - 1), SlotCount(c), hd,
                SlotIndex(c, layer, n - 1, pos), HeadOf(vec, c.headCountKv, hd, n - 1))
  }

  /** Storing writes the slots of its layer and position, and no other. */
  lemma {:induction false} StoredSlot(c: Config, buf: Vec, hd: nat, layer: nat, pos: nat, vec: Vec, n: nat,
                                      layer': nat, head': nat, pos': nat)
    requires layer < c.blockCount && pos < c.contextLength && n <= c.headCountKv
    requires |buf| == SlotCount(c) * hd && |vec| == c.headCountKv * hd
    requires InCache(c, layer', head', pos')
    ensures SlotIndex(c, layer', head', pos') < SlotCount(c)
    ensures SlotAt(StoreHeads(c, buf, hd, layer, pos, vec, n), SlotCount(c), hd, SlotIndex(c, layer', head', pos')) ==
            if layer' == layer && pos' == pos && head' < n then HeadOf(vec, c.headCountKv, hd, head')
            else SlotAt(buf, SlotCount(c), hd, SlotIndex(c, layer', head', pos'))
    decreases n
  {
    hide SlotIndex, SlotCount, SlotAt, WriteSlot;
    SlotInRange(c, layer', head', pos');
    if n > 0 {
      StoredSlot(c, buf, hd, layer, pos, vec, n - 1, layer', head', pos');
      SlotInRange(c, layer, n - 1, pos);
      WriteThenRead(StoreHeads(c, buf, hd, layer, pos, vec, n - 1), SlotCount(c), hd,
                    SlotIndex(c, layer, n - 1, pos), HeadOf(vec, c.headCountKv, hd, n - 1),
                    SlotIndex(c, layer', head', pos'));
      if SlotIndex(c, layer, n - 1, pos) == SlotIndex(c, layer', head', pos') {
        SlotsDistinct(c, layer, n - 1, pos, layer', head', pos');
      }
    }
  }

  /** Storing the next position of a layer extends what the buffer holds there and keeps the other layers. */
  lemma StoreHolds(c: Config, buf: Vec, hd: nat, layer: nat, vec: Vec, layer': nat, vecs: seq<Vec>)
    requires Holds(c, buf, hd, layer', vecs) && layer < c.blockCount && |vec| == c.headCountKv * hd
    requires layer' == layer ==> |vecs| < c.contextLength
    ensures layer' == layer ==>
              Holds(c, StoreHeads(c, buf, hd, layer, |vecs|, vec, c.headCountKv), hd, layer, vecs + [vec])
    ensures forall pos: nat :: layer' != layer && pos < c.contextLength ==>
              Holds(c, StoreHeads(c, buf, hd, layer, pos, vec, c.headCountKv), hd, layer', vecs)
  {
    hide SlotAt, SlotIndex, SlotCount, StoreHeads;
    if layer' == layer {
      var pos, after := |vecs|, vecs + [vec];
      var stored := StoreHeads(c, buf, hd, layer, pos, vec, c.headCountKv);
      forall h, p | 0 <= h < c.headCountKv && 0 <= p < |after|
        ensures HoldsAt(c, stored, hd, layer, after, h, p)
      {
        StoredSlot(c, buf, hd, layer, pos, vec, c.headCountKv, layer, h, p);
        assert p < pos ==> HoldsAt(c, buf, hd, layer, vecs, h, p);
      }
    } else {
      forall pos: nat | pos < c.contextLength
        ensures Holds(c, StoreHeads(c, buf, hd, layer, pos, vec, c.headCountKv), hd, layer', vecs)
      {
        var stored := StoreHeads(c, buf, hd, layer, pos, vec, c.headCountKv);
        forall h, p | 0 <= h < c.headCountKv && 0 <= p < |vecs|
          ensures HoldsAt(c, stored, hd, layer', vecs, h, p)
        {
          StoredSlot(c, buf, hd, layer, pos, vec, c.headCountKv, layer', h, p);
          assert HoldsAt(c, buf, hd, layer', vecs, h, p);
        }
      }
    }
  }

  // ----- the cache -----

  function Keys(rows: seq<Row>): (r: seq<Vec>)
    ensures |r| == |rows| && forall i :: 0 <= i < |rows| ==> r[i] == rows[i].k
  {
    seq(|rows|, i requires 0 <= i < |rows| => rows[i].k)
  }

  function Values(rows: seq<Row>): (r: seq<Vec>)
    ensures |r| == |rows| && forall i :: 0 <= i < |rows| ==> r[i] == rows[i].v
  {
    seq(|rows|, i requires 0 <= i < |rows| => rows[i].v)
  }

  class KvCache {
    const config: Config
    const headDim: nat
    var k: Vec
    var v: Vec

    ghost predicate Valid()
      reads this
    {
      && ValidConfig(config) && headDim == HeadDim(config)
      && |k| == |v| == SlotCount(config) * headDim
    }

    constructor (config: Config)
      requires ValidConfig(config)
      ensures Valid() && this.config == config
      ensures k == v && forall i :: 0 <= i < |k| ==> k[i] == 0
      ensures forall l :: 0 <= l < config.blockCount ==>
                Holds(config, k, headDim, l, []) && Holds(config, v, headDim, l, [])
    {
      this.config := config;
      headDim := HeadDim(config);
      var n := SlotCount(config) * HeadDim(config);
      k := seq(n, _ => 0);
      v := seq(n, _ => 0);
    }

    method Store(layer: nat, pos: nat, kLayer: Vec, vLayer: Vec) returns (r: Result<(), ModelError>)
      requires Valid()
      modifies this
      ensures Valid()
      ensures var n := config.headCountKv * headDim;
              r == if |kLayer| != n || |vLayer| != n then Err(Shape)
                   else if !AllFinite(kLayer) || !AllFinite(vLayer) then Err(NonFinite)
                   else if layer >= config.blockCount || pos >= config.contextLength then Err(Shape)
                   else Ok(())
      ensures r.Err? ==> k == old(k) && v == old(v)
      ensures r.Ok? ==>
                && k == StoreHeads(config, old(k), headDim, layer, pos, kLayer, config.headCountKv)
                && v == StoreHeads(config, old(v), headDim, layer, pos, vLayer, config.headCountKv)
    {
      if |kLayer| != config.headCountKv * headDim || |vLayer| != config.headCountKv * headDim {
        return Err(Shape);
      }
      if !AllFinite(kLayer) || !AllFinite(vLayer) {
        return Err(NonFinite);
      }
      if layer >= config.blockCount || pos >= config.contextLength {
        return Err(Shape);
      }
      for head := 0 to config.headCountKv
        invariant Valid()
        invariant k == StoreHeads(config, old(k), headDim, layer, pos, kLayer, head)
        invariant v == StoreHeads(config, old(v), headDim, layer, pos, vLayer, head)
      {
        SlotInRange(config, layer, head, pos);
        var slot := SlotIndex(config, layer, head, pos);
        k := WriteSlot(k, SlotCount(config), headDim, slot, HeadOf(kLayer, config.headCountKv, headDim, head));
        v := WriteSlot(v, SlotCount(config), headDim, slot, HeadOf(vLayer, config.headCountKv, headDim, head));
      }
      r := Ok(());
    }
  }
}
