/** The kernels that work in place or add up as they go: rotation, softmax and the weighted sum of values. */
module InPlaceKernels {
  import opened Outcomes
  import opened Floats
  import opened Llama
  import opened KvCaches

  // ----- rotation -----

  function FirstOf(pairing: Pairing, j: nat): nat {
    if pairing.Adjacent? then 2 * j else j
  }

  function SecondOf(pairing: Pairing, half: nat, j: nat): nat {
    if pairing.Adjacent? then 2 * j + 1 else j + half
  }

  /** The pair an element of a head is in. */
  function PairOf(pairing: Pairing, half: nat, o: nat): (j: nat)
    requires o < 2 * half
    ensures j < half && (o == FirstOf(pairing, j) || o == SecondOf(pairing, half, j))
  {
    if pairing.Adjacent? then o / 2 else if o < half then o else o - half
  }

  /** An element of a rotated head, from the head as it was before. */
  function RotatedAt(k: Kernels, pairing: Pairing, x: Vec, cos: Vec, sin: Vec, o: nat): F32
    requires |cos| == |sin| && 2 * |cos| <= |x| && o < |x|
  {
    var half := |cos|;
    if o >= 2 * half then x[o]
    else
      var j := PairOf(pairing, half, o);
      var (x0, x1) := (x[FirstOf(pairing, j)], x[SecondOf(pairing, half, j)]);
      if o == FirstOf(pairing, j) then k.rotateFirst(x0, x1, cos[j], sin[j]) else k.rotateSecond(x0, x1, cos[j], sin[j])
  }

  function RotatedHead(k: Kernels, pairing: Pairing, x: Vec, cos: Vec, sin: Vec): (r: Vec)
    requires |cos| == |sin| && 2 * |cos| <= |x|
    ensures |r| == |x|
  {
    seq(|x|, o requires 0 <= o < |x| => RotatedAt(k, pairing, x, cos, sin, o))
  }

  /** The first n heads, each rotated by the same angles. */
  function RotatedHeads(k: Kernels, pairing: Pairing, x: Vec, heads: nat, hd: nat, cos: Vec, sin: Vec, n: nat): (r: Vec)
    requires |x| == heads * hd && n <= heads && |cos| == |sin| && 2 * |cos| <= hd
    ensures |r| == n * hd
  {
    if n == 0 then []
    else
      assert (n - 1) * hd + hd == n * hd;
      RotatedHeads(k, pairing, x, heads, hd, cos, sin, n - 1)
      + RotatedHead(k, pairing, HeadOf(x, heads, hd, n - 1), cos, sin)
  }

  function Rope(k: Kernels, pairing: Pairing, x: Vec, heads: nat, hd: nat, cos: Vec, sin: Vec)
    : (r: Result<Vec, ModelError>)
    ensures r.Ok? ==> |r.value| == |x|
  {
    if heads == 0 || hd == 0 || |x| != heads * hd || |cos| == 0 || |cos| != |sin| || 2 * |cos| > hd then Err(Shape)
    else if !AllFinite(x) || !AllFinite(cos) || !AllFinite(sin) then Err(NonFinite)
    else
      var y := RotatedHeads(k, pairing, x, heads, hd, cos, sin, heads);
      if AllFinite(y) then Ok(y) else Err(NonFinite)
  }

  /** Pair by pair in place: a pair is read before it is overwritten, and no pair overlaps another. */
  method RotateHead(k: Kernels, pairing: Pairing, x: Vec, cos: Vec, sin: Vec)
    returns (r: Result<(), ModelError>, out: Vec)
    requires |cos| == |sin| && 2 * |cos| <= |x| && AllFinite(x)
    ensures |out| == |x|
    ensures r == if AllFinite(RotatedHead(k, pairing, x, cos, sin)) then Ok(()) else Err(NonFinite)
    ensures r.Ok? ==> out == RotatedHead(k, pairing, x, cos, sin)
  {
    hide IsFinite;
    var half := |cos|;
    ghost var spec := RotatedHead(k, pairing, x, cos, sin);
    out := x;
    for j := 0 to half
      invariant |out| == |x|
      invariant forall o :: 0 <= o < |x| ==>
                  out[o] == if o < 2 * half && PairOf(pairing, half, o) < j then spec[o] else x[o]
      invariant AllFinite(out)
    {
      var (first, second) := (FirstOf(pairing, j), SecondOf(pairing, half, j));
      PairAt(pairing, half, j);
      var (x0, x1) := (out[first], out[second]);
      out := out[first := k.rotateFirst(x0, x1, cos[j], sin[j])];
      out := out[second := k.rotateSecond(x0, x1, cos[j], sin[j])];
      assert out[first] == spec[first] && out[second] == spec[second];
      if !IsFinite(out[first]) || !IsFinite(out[second]) {
        return Err(NonFinite), out;
      }
    }
    assert out == spec;
    r := Ok(());
  }

  lemma PairAt(pairing: Pairing, half: nat, j: nat)
    requires j < half
    ensures var (first, second) := (FirstOf(pairing, j), SecondOf(pairing, half, j));
            && first != second && first < 2 * half && second < 2 * half
            && PairOf(pairing, half, first) == j && PairOf(pairing, half, second) == j
  {
  }

  /** The first n heads rotated in place and finite, the others untouched. */
  ghost predicate HeadsRotated(k: Kernels, pairing: Pairing, x: Vec, heads: nat, hd: nat, cos: Vec, sin: Vec, out: Vec,
                               n: nat)
    requires |x| == heads * hd && n <= heads && |cos| == |sin| && 2 * |cos| <= hd
  {
    && |out| == |x| && 0 <= n * hd <= |x|
    && out[..n * hd] == RotatedHeads(k, pairing, x, heads, hd, cos, sin, n) && AllFinite(out[..n * hd])
    && forall h :: n <= h < heads ==> HeadOf(out, heads, hd, h) == HeadOf(x, heads, hd, h)
  }

  lemma HeadRotated(k: Kernels, pairing: Pairing, x: Vec, heads: nat, hd: nat, cos: Vec, sin: Vec, out: Vec, n: nat)
    requires |x| == heads * hd && n < heads && |cos| == |sin| && 2 * |cos| <= hd
    requires HeadsRotated(k, pairing, x, heads, hd, cos, sin, out, n)
    requires AllFinite(RotatedHead(k, pairing, HeadOf(x, heads, hd, n), cos, sin))
    ensures var y := RotatedHead(k, pairing, HeadOf(x, heads, hd, n), cos, sin);
            HeadsRotated(k, pairing, x, heads, hd, cos, sin, WriteSlot(out, heads, hd, n, y), n + 1)
  {
    hide RotatedHead, IsFinite;
    var y := RotatedHead(k, pairing, HeadOf(x, heads, hd, n), cos, sin);
    WrittenThrough(out, heads, hd, n, y);
    FiniteParts(out[..n * hd], y);
    forall h | n + 1 <= h < heads
      ensures HeadOf(WriteSlot(out, heads, hd, n, y), heads, hd, h) == HeadOf(x, heads, hd, h)
    {
      WriteThenRead(out, heads, hd, n, y, h);
      assert HeadOf(out, heads, hd, h) == HeadOf(x, heads, hd, h);
    }
  }

  lemma FiniteParts(a: Vec, b: Vec)
    ensures AllFinite(a + b) <==> AllFinite(a) && AllFinite(b)
  {
    if AllFinite(a + b) {
      forall i | 0 <= i < |b|
        ensures IsFinite(b[i])
      {
        assert (a + b)[|a| + i] == b[i];
      }
      forall i | 0 <= i < |a|
        ensures IsFinite(a[i])
      {
        assert (a + b)[i] == a[i];
      }
    }
  }

  /** A head that does not stay finite spoils the whole rotation. */
  lemma {:induction false} SpoiledHead(k: Kernels, pairing: Pairing, x: Vec, heads: nat, hd: nat, cos: Vec, sin: Vec,
                                       h: nat, n: nat)
    requires |x| == heads * hd && h < n <= heads && |cos| == |sin| && 2 * |cos| <= hd
    requires !AllFinite(RotatedHead(k, pairing, HeadOf(x, heads, hd, h), cos, sin))
    ensures !AllFinite(RotatedHeads(k, pairing, x, heads, hd, cos, sin, n))
    decreases n
  {
    hide RotatedHead, AllFinite;
    FiniteParts(RotatedHeads(k, pairing, x, heads, hd, cos, sin, n - 1),
                RotatedHead(k, pairing, HeadOf(x, heads, hd, n - 1), cos, sin));
    if h < n - 1 {
      SpoiledHead(k, pairing, x, heads, hd, cos, sin, h, n - 1);
    }
  }

  method ApplyRope(k: Kernels, pairing: Pairing, x: Vec, heads: nat, hd: nat, cos: Vec, sin: Vec)
    returns (r: Result<(), ModelError>, out: Vec)
    ensures Wrote(Rope(k, pairing, x, heads, hd, cos, sin), r, x, out)
  {
    hide RotatedHead, RotatedHeads, IsFinite, HeadsRotated;
    out := x;
    if heads == 0 || hd == 0 || |x| != heads * hd || |cos| == 0 || |cos| != |sin| || 2 * |cos| > hd {
      return Err(Shape), out;
    }
    if !AllFinite(x) || !AllFinite(cos) || !AllFinite(sin) {
      return Err(NonFinite), out;
    }
    NoHeadRotated(k, pairing, x, heads, hd, cos, sin);
    for head := 0 to heads
      invariant HeadsRotated(k, pairing, x, heads, hd, cos, sin, out, head)
    {
      NextHead(k, pairing, x, heads, hd, cos, sin, out, head);
      var y;
      r, y := RotateHead(k, pairing, HeadOf(out, heads, hd, head), cos, sin);
      if r.Err? {
        SpoiledHead(k, pairing, x, heads, hd, cos, sin, head, heads);
        return;
      }
      HeadRotated(k, pairing, x, heads, hd, cos, sin, out, head);
      out := WriteSlot(out, heads, hd, head, y);
    }
    EveryHeadRotated(k, pairing, x, heads, hd, cos, sin, out);
    r := Ok(());
  }

  lemma NoHeadRotated(k: Kernels, pairing: Pairing, x: Vec, heads: nat, hd: nat, cos: Vec, sin: Vec)
    requires |x| == heads * hd && |cos| == |sin| && 2 * |cos| <= hd
    ensures HeadsRotated(k, pairing, x, heads, hd, cos, sin, x, 0)
  {
    assert 0 * hd == 0;
  }

  lemma NextHead(k: Kernels, pairing: Pairing, x: Vec, heads: nat, hd: nat, cos: Vec, sin: Vec, out: Vec, n: nat)
    requires |x| == heads * hd && n < heads && |cos| == |sin| && 2 * |cos| <= hd && AllFinite(x)
    requires HeadsRotated(k, pairing, x, heads, hd, cos, sin, out, n)
    ensures |out| == heads * hd && HeadOf(out, heads, hd, n) == HeadOf(x, heads, hd, n)
    ensures AllFinite(HeadOf(x, heads, hd, n))
  {
    hide IsFinite;
    SlotFits(n, heads, hd);
  }

  lemma EveryHeadRotated(k: Kernels, pairing: Pairing, x: Vec, heads: nat, hd: nat, cos: Vec, sin: Vec, out: Vec)
    requires |x| == heads * hd && |cos| == |sin| && 2 * |cos| <= hd
    requires HeadsRotated(k, pairing, x, heads, hd, cos, sin, out, heads)
    ensures |out| == |x|
    ensures out == RotatedHeads(k, pairing, x, heads, hd, cos, sin, heads) && AllFinite(out)
  {
    assert out[..|out|] == out;
  }

  // ----- softmax -----

  const NEG_INFINITY: F32 := 0xff80_0000

  function Larger(a: F32, b: F32): F32 {
    if Greater(b, a) then b else a
  }

  /** The running maximum, which starts at minus infinity. */
  function MaxOf(x: Vec): F32 {
    if x == [] then NEG_INFINITY else Larger(MaxOf(x[..|x| - 1]), x[|x| - 1])
  }

  /** No element is greater, and of a non-empty vector of finite numbers it is one of the elements. */
  lemma {:induction false} MaxIsGreatest(x: Vec)
    requires AllFinite(x)
    ensures forall i :: 0 <= i < |x| ==> !Greater(x[i], MaxOf(x))
    ensures x != [] ==> MaxOf(x) in x
    decreases |x|
  {
    if x != [] {
      var rest := x[..|x| - 1];
      MaxIsGreatest(rest);
      assert x == rest + [x[|x| - 1]];
      assert IsFinite(x[|x| - 1]);
    }
  }

  /** Exponentials of the distances from the maximum. */
  function Exponentials(k: Kernels, x: Vec): (r: Vec)
    ensures |r| == |x|
  {
    seq<F32>(|x|, i requires 0 <= i < |x| => k.shiftedExp(x[i], MaxOf(x)))
  }

  function Softmax(k: Kernels, x: Vec): (r: Result<Vec, ModelError>)
    ensures r.Ok? ==> |r.value| == |x|
  {
    if x == [] then Err(Shape)
    else if !AllFinite(x) then Err(NonFinite)
    else
      var e := Exponentials(k, x);
      var z := k.sum(e);
      if !IsFinite(z) || IsZero(z) then Err(NonFinite)
      else Build(|x|, (i: nat) => if i < |e| then Checked(k.divide(e[i], z)) else Err(Shape))
  }

  /** Three passes over one buffer: the maximum, the exponentials over the inputs, the quotients over the
      exponentials. */
  method SoftmaxInPlace(k: Kernels, x: Vec) returns (r: Result<(), ModelError>, out: Vec)
    ensures Wrote(Softmax(k, x), r, x, out)
  {
    out := x;
    if x == [] {
      return Err(Shape), out;
    }
    var max;
    r, max := FiniteMax(x);
    if r.Err? {
      return;
    }
    out := OverwriteExponentials(k, x, max);
    var e := out;
    var z := k.sum(out);
    if !IsFinite(z) || IsZero(z) {
      return Err(NonFinite), out;
    }
    var quotient := (i: nat) => if i < |e| then Checked(k.divide(e[i], z)) else Err(Shape);
    for i := 0 to |x|
      invariant |out| == |x| && forall j :: i <= j < |x| ==> out[j] == e[j]
      invariant Build(i, quotient) == Ok(out[..i])
    {
      out := out[i := k.divide(out[i], z)];
      assert out[..i + 1] == out[..i] + [out[i]];
      if !IsFinite(out[i]) {
        BuildStops(|x|, quotient, i);
        return Err(NonFinite), out;
      }
    }
    assert out[..|x|] == out;
    r := Ok(());
  }

  method FiniteMax(x: Vec) returns (r: Result<(), ModelError>, max: F32)
    ensures r == if AllFinite(x) then Ok(()) else Err(NonFinite)
    ensures r.Ok? ==> max == MaxOf(x)
  {
    max := NEG_INFINITY;
    for i := 0 to |x|
      invariant max == MaxOf(x[..i]) && AllFinite(x[..i])
    {
      if !IsFinite(x[i]) {
        return Err(NonFinite), max;
      }
      assert x[..i + 1][..i] == x[..i];
      if Greater(x[i], max) {
        max := x[i];
      }
    }
    assert x[..|x|] == x;
    r := Ok(());
  }

  method OverwriteExponentials(k: Kernels, x: Vec, max: F32) returns (out: Vec)
    requires max == MaxOf(x)
    ensures out == Exponentials(k, x)
  {
    hide MaxOf;
    out := x;
    for i := 0 to |x|
      invariant |out| == |x|
      invariant forall j :: 0 <= j < |x| ==> out[j] == if j < i then k.shiftedExp(x[j], max) else x[j]
    {
      out := out[i := k.shiftedExp(out[i], max)];
    }
  }

  // ----- weighted sum -----

  /** Element d of the sum over the first n positions, which must stay finite all along. */
  function Accumulated(k: Kernels, probs: Vec, values: Vec, hd: nat, d: nat, n: nat): (r: Result<F32, ModelError>)
    requires |values| == |probs| * hd && d < hd && n <= |probs|
    ensures r.Err? ==> r.error == NonFinite
  {
    if n == 0 then Ok(0)
    else
      var sum :- Accumulated(k, probs, values, hd, d, n - 1);
      Checked(k.multiplyAdd(sum, probs[n - 1], SlotAt(values, |probs|, hd, n - 1)[d]))
  }

  function Weighted(k: Kernels, probs: Vec, values: Vec, hd: nat): (r: Result<Vec, ModelError>)
    ensures r.Ok? ==> |r.value| == hd
  {
    if hd == 0 || probs == [] || |values| != |probs| * hd then Err(Shape)
    else if !AllFinite(probs) || !AllFinite(values) then Err(NonFinite)
    else if |probs| == 1 then Ok(values)
    else Build(hd, (d: nat) => if d < hd then Accumulated(k, probs, values, hd, d, |probs|) else Err(NonFinite))
  }

  lemma {:induction false} AccumulationFails(k: Kernels, probs: Vec, values: Vec, hd: nat, d: nat, n: nat, m: nat)
    requires |values| == |probs| * hd && d < hd && n <= m <= |probs|
    requires Accumulated(k, probs, values, hd, d, n).Err?
    ensures Accumulated(k, probs, values, hd, d, m).Err?
    decreases m
  {
    if n < m {
      AccumulationFails(k, probs, values, hd, d, n, m - 1);
    }
  }

  lemma {:induction false} BuildNotFinite(n: nat, f: nat -> Result<F32, ModelError>, i: nat)
    requires i < n && f(i).Err? && forall j: nat :: f(j).Err? ==> f(j).error == NonFinite
    ensures Build(n, f) == Err(NonFinite)
    decreases n
  {
    if i < n - 1 {
      BuildNotFinite(n - 1, f, i);
    } else {
      BuildErrors(n - 1, f);
    }
  }

  lemma {:induction false} BuildErrors(n: nat, f: nat -> Result<F32, ModelError>)
    requires forall j: nat :: f(j).Err? ==> f(j).error == NonFinite
    ensures Build(n, f).Err? ==> Build(n, f).error == NonFinite
    decreases n
  {
    if n > 0 {
      BuildErrors(n - 1, f);
    }
  }

  /** Position by position, every element of the output at each: zeroed first, so what it held does not matter. */
  method WeightedValue(k: Kernels, probs: Vec, values: Vec, stale: Vec) returns (r: Result<(), ModelError>, out: Vec)
    ensures Wrote(Weighted(k, probs, values, |stale|), r, stale, out)
  {
    hide IsFinite, SlotAt, Accumulated;
    var hd := |stale|;
    out := stale;
    if hd == 0 || probs == [] || |values| != |probs| * hd {
      return Err(Shape), out;
    }
    if !AllFinite(probs) || !AllFinite(values) {
      return Err(NonFinite), out;
    }
    if |probs| == 1 {
      return Ok(()), values;
    }
    out := seq(hd, _ => 0);
    NothingAccumulated(k, probs, values, hd);
    for j := 0 to |probs|
      invariant |out| == hd
      invariant forall d :: 0 <= d < hd ==> Accumulated(k, probs, values, hd, d, j) == Ok(out[d])
    {
      ghost var spec := (d: nat) => if d < hd then Accumulated(k, probs, values, hd, d, |probs|) else Err(NonFinite);
      ghost var failing;
      r, out, failing := AddPosition(k, probs, values, out, j);
      if r.Err? {
        AccumulationFails(k, probs, values, hd, failing, j + 1, |probs|);
        BuildNotFinite(hd, spec, failing);
        return;
      }
    }
    var spec := (d: nat) => if d < hd then Accumulated(k, probs, values, hd, d, |probs|) else Err(NonFinite);
    BuildSucceeds(hd, spec, out);
    r := Ok(());
  }

  lemma NothingAccumulated(k: Kernels, probs: Vec, values: Vec, hd: nat)
    requires |values| == |probs| * hd
    ensures forall d :: 0 <= d < hd ==> Accumulated(k, probs, values, hd, d, 0) == Ok(0)
  {
  }

  lemma AccumulatedTurn(k: Kernels, probs: Vec, values: Vec, hd: nat, d: nat, j: nat, sum: F32)
    requires |values| == |probs| * hd && d < hd && j < |probs| && Accumulated(k, probs, values, hd, d, j) == Ok(sum)
    ensures Accumulated(k, probs, values, hd, d, j + 1) ==
            Checked(k.multiplyAdd(sum, probs[j], SlotAt(values, |probs|, hd, j)[d]))
  {
  }

  /** One position's share of every element, stopping at the first that is not finite. */
  method AddPosition(k: Kernels, probs: Vec, values: Vec, sums: Vec, j: nat)
    returns (r: Result<(), ModelError>, out: Vec, ghost failing: nat)
    requires |values| == |probs| * |sums| && j < |probs|
    requires forall d :: 0 <= d < |sums| ==> Accumulated(k, probs, values, |sums|, d, j) == Ok(sums[d])
    ensures |out| == |sums|
    ensures r.Ok? ==> forall d :: 0 <= d < |sums| ==> Accumulated(k, probs, values, |sums|, d, j + 1) == Ok(out[d])
    ensures r.Err? ==>
              r.error == NonFinite && failing < |sums| && Accumulated(k, probs, values, |sums|, failing, j + 1).Err?
  {
    hide IsFinite, SlotAt, Accumulated;
    out, failing := sums, 0;
    var value := SlotAt(values, |probs|, |sums|, j);
    for d := 0 to |sums|
      invariant |out| == |sums|
      invariant forall e :: 0 <= e < d ==> Accumulated(k, probs, values, |sums|, e, j + 1) == Ok(out[e])
      invariant forall e :: d <= e < |sums| ==> out[e] == sums[e]
    {
      AccumulatedTurn(k, probs, values, |sums|, d, j, sums[d]);
      out := out[d := k.multiplyAdd(out[d], probs[j], value[d])];
      if !IsFinite(out[d]) {
        return Err(NonFinite), out, d;
      }
    }
    r := Ok(());
  }
}
