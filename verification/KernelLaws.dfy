/** What the kernels leave in their outputs, number by number: each succeeds with a vector exactly if it is this one. */
module KernelLaws {
  import opened Outcomes
  import opened Floats
  import opened Llama
  import opened KvCaches
  import opened InPlaceKernels
  import opened Forward

  // ----- vectors -----

  lemma BuildIff(n: nat, f: nat -> Result<F32, ModelError>, out: Vec)
    ensures Build(n, f) == Ok(out) <==> |out| == n && forall i :: 0 <= i < n ==> f(i) == Ok(out[i])
  {
    if |out| == n && forall i :: 0 <= i < n ==> f(i) == Ok(out[i]) {
      BuildSucceeds(n, f, out);
    }
  }

  lemma CheckedIff(x: F32, y: F32)
    ensures Checked(x) == Ok(y) <==> x == y && IsFinite(y)
  {
  }

  /** Elements that are rejected if they are not finite. */
  lemma BuildCheckedIff(n: nat, f: nat -> Result<F32, ModelError>, g: nat -> F32, out: Vec)
    requires forall i :: 0 <= i < n ==> f(i) == Checked(g(i))
    ensures Build(n, f) == Ok(out) <==> |out| == n && AllFinite(out) && forall i :: 0 <= i < n ==> out[i] == g(i)
  {
    hide IsFinite, Checked;
    BuildIff(n, f, out);
    if |out| == n {
      forall i | 0 <= i < n
        ensures f(i) == Ok(out[i]) <==> g(i) == out[i] && IsFinite(out[i])
      {
        CheckedIff(g(i), out[i]);
      }
    }
  }

  /** The input scaled by one number and, element by element, by the weight. */
  ghost predicate IsNorm(k: Kernels, x: Vec, weight: Vec, h: Vec) {
    && |h| == |x| == |weight| > 0
    && AllFinite(x) && AllFinite(weight) && AllFinite(h) && IsFinite(k.normScale(x))
    && forall i :: 0 <= i < |h| ==> h[i] == k.scaled(x[i], k.normScale(x), weight[i])
  }

  lemma NormIff(k: Kernels, x: Vec, weight: Vec, h: Vec)
    ensures Norm(k, x, weight) == Ok(h) <==> IsNorm(k, x, weight, h)
  {
    hide IsFinite;
    if |x| == |weight| {
      var f := (i: nat) => if i < |x| then Checked(k.scaled(x[i], k.normScale(x), weight[i])) else Err(Shape);
      BuildCheckedIff(|x|, f, (i: nat) => if i < |x| then k.scaled(x[i], k.normScale(x), weight[i]) else 0, h);
    }
  }

  /** The activations a matrix multiplies: none but the input itself, or the input quantised as the matrix needs it. */
  ghost predicate IsQuantised(k: Kernels, m: Matrix, x: Vec, q: Blocks) {
    match m.kind
    case Plain => q == []
    case NeedsQ8a => k.quantizeQ8a(x) == Ok(q)
    case NeedsQ8k => k.quantizeQ8k(x) == Ok(q)
  }

  /** Row by row the product with the matrix. */
  ghost predicate IsProduct(k: Kernels, m: Matrix, x: Vec, y: Vec) {
    && |x| == m.cols && |y| == m.rows && AllFinite(x) && AllFinite(y)
    && exists q :: IsQuantised(k, m, x, q) && forall i :: 0 <= i < m.rows ==> m.dot(x, q, i) == Ok(y[i])
  }

  lemma RowsIff(m: Matrix, x: Vec, q: Blocks, y: Vec)
    ensures Rows(m, x, q) == Ok(y) <==>
            |y| == m.rows && AllFinite(y) && forall i :: 0 <= i < m.rows ==> m.dot(x, q, i) == Ok(y[i])
  {
    hide IsFinite;
    var f: RowKernel := (i: nat) => m.dot(x, q, i);
    BuildIff(m.rows, (i: nat) => FiniteRow(f, i), y);
    forall i | 0 <= i < m.rows && i < |y|
      ensures FiniteRow(f, i) == Ok(y[i]) <==> m.dot(x, q, i) == Ok(y[i]) && IsFinite(y[i])
    {
      if m.dot(x, q, i).Ok? {
        CheckedIff(m.dot(x, q, i).value, y[i]);
      }
    }
  }

  lemma ProjectIff(k: Kernels, m: Matrix, x: Vec, y: Vec)
    ensures Project(k, m, x) == Ok(y) <==> IsProduct(k, m, x, y)
  {
    hide IsFinite, Rows;
    forall q
      ensures Rows(m, x, q) == Ok(y) <==>
              |y| == m.rows && AllFinite(y) && forall i :: 0 <= i < m.rows ==> m.dot(x, q, i) == Ok(y[i])
    {
      RowsIff(m, x, q, y);
    }
    if m.kind.Plain? {
      assert IsQuantised(k, m, x, []);
    } else {
      var blocks := if m.kind.NeedsQ8a? then k.quantizeQ8a(x) else k.quantizeQ8k(x);
      assert blocks.Ok? ==> IsQuantised(k, m, x, blocks.value);
    }
  }

  /** With activations that were quantised for several matrices at once. */
  lemma ProjectSharedIff(k: Kernels, m: Matrix, x: Vec, q8a: Blocks, y: Vec)
    requires m.kind == NeedsQ8a ==> k.quantizeQ8a(x) == Ok(q8a)
    ensures ProjectShared(k, m, x, q8a) == Ok(y) <==> IsProduct(k, m, x, y)
  {
    ProjectIff(k, m, x, y);
  }

  /** The sum of two vectors. */
  ghost predicate IsSum(k: Kernels, x: Vec, y: Vec, z: Vec) {
    && |x| == |y| == |z| && AllFinite(x) && AllFinite(y) && AllFinite(z)
    && forall i :: 0 <= i < |z| ==> z[i] == k.add(x[i], y[i])
  }

  lemma AddIff(k: Kernels, x: Vec, y: Vec, z: Vec)
    ensures Add(k, x, y) == Ok(z) <==> IsSum(k, x, y, z)
  {
    hide IsFinite;
    if |x| == |y| {
      var f := (i: nat) => if i < |x| then Checked(k.add(x[i], y[i])) else Err(Shape);
      BuildCheckedIff(|x|, f, (i: nat) => if i < |x| then k.add(x[i], y[i]) else 0, z);
    }
  }

  /** A product, and the bias added to it if there is one. */
  ghost predicate IsBiased(k: Kernels, m: Matrix, bias: Option<Vec>, x: Vec, y: Vec) {
    exists z :: IsProduct(k, m, x, z) && if bias.None? then y == z else IsSum(k, z, bias.value, y)
  }

  lemma BiasedIff(k: Kernels, m: Matrix, bias: Option<Vec>, x: Vec, q8a: Blocks, y: Vec)
    requires m.kind == NeedsQ8a ==> k.quantizeQ8a(x) == Ok(q8a)
    ensures Biased(k, m, bias, x, q8a) == Ok(y) <==> IsBiased(k, m, bias, x, y)
  {
    hide ProjectShared, IsProduct, Add, IsSum;
    forall z ensures ProjectShared(k, m, x, q8a) == Ok(z) <==> IsProduct(k, m, x, z)
    {
      ProjectSharedIff(k, m, x, q8a, z);
    }
    if ProjectShared(k, m, x, q8a).Ok? {
      var z := ProjectShared(k, m, x, q8a).value;
      assert ProjectShared(k, m, x, q8a) == Ok(z);
      if bias.Some? {
        AddIff(k, z, bias.value, y);
      }
    }
  }

  /** The gated activation. */
  ghost predicate IsGated(k: Kernels, gate: Vec, up: Vec, ff: Vec) {
    && |gate| == |up| == |ff| && AllFinite(gate) && AllFinite(up) && AllFinite(ff)
    && forall i :: 0 <= i < |ff| ==> ff[i] == k.swiglu(gate[i], up[i])
  }

  lemma SwigluIff(k: Kernels, gate: Vec, up: Vec, ff: Vec)
    ensures Swiglu(k, gate, up) == Ok(ff) <==> IsGated(k, gate, up, ff)
  {
    hide IsFinite;
    if |gate| == |up| {
      var f := (i: nat) => if i < |gate| then Checked(k.swiglu(gate[i], up[i])) else Err(Shape);
      BuildCheckedIff(|gate|, f, (i: nat) => if i < |gate| then k.swiglu(gate[i], up[i]) else 0, ff);
    }
  }

  // ----- rotation -----

  /** One head: element 2j with 2j + 1, or j with j + half, turned by the j-th angle; the rest as it was. */
  ghost predicate IsTurned(k: Kernels, pairing: Pairing, x: Vec, cos: Vec, sin: Vec, y: Vec) {
    var half := |cos|;
    && |y| == |x| && |sin| == half && 2 * half <= |x|
    && (forall j :: 0 <= j < half ==>
          var (a, b) := if pairing.Adjacent? then (2 * j, 2 * j + 1) else (j, j + half);
          y[a] == k.rotateFirst(x[a], x[b], cos[j], sin[j]) && y[b] == k.rotateSecond(x[a], x[b], cos[j], sin[j]))
    && forall o :: 2 * half <= o < |x| ==> y[o] == x[o]
  }

  lemma RotatedHeadIff(k: Kernels, pairing: Pairing, x: Vec, cos: Vec, sin: Vec, y: Vec)
    requires |cos| == |sin| && 2 * |cos| <= |x|
    ensures y == RotatedHead(k, pairing, x, cos, sin) <==> IsTurned(k, pairing, x, cos, sin, y)
  {
    hide IsTurned, RotatedAt;
    var z, half := RotatedHead(k, pairing, x, cos, sin), |cos|;
    RotatedIsTurned(k, pairing, x, cos, sin);
    if IsTurned(k, pairing, x, cos, sin, y) {
      NotTurned(k, pairing, x, cos, sin, y);
      NotTurned(k, pairing, x, cos, sin, z);
      forall o | 0 <= o < |x|
        ensures y[o] == z[o]
      {
        if o < 2 * half {
          TurnedAt(k, pairing, x, cos, sin, y, PairOf(pairing, half, o));
          TurnedAt(k, pairing, x, cos, sin, z, PairOf(pairing, half, o));
        }
      }
    }
  }

  lemma TurnedAt(k: Kernels, pairing: Pairing, x: Vec, cos: Vec, sin: Vec, y: Vec, j: nat)
    requires IsTurned(k, pairing, x, cos, sin, y) && j < |cos|
    ensures var (a, b) := (FirstOf(pairing, j), SecondOf(pairing, |cos|, j));
            && a < |y| && b < |y|
            && y[a] == k.rotateFirst(x[a], x[b], cos[j], sin[j]) && y[b] == k.rotateSecond(x[a], x[b], cos[j], sin[j])
  {
  }

  lemma NotTurned(k: Kernels, pairing: Pairing, x: Vec, cos: Vec, sin: Vec, y: Vec)
    requires IsTurned(k, pairing, x, cos, sin, y)
    ensures |y| == |x| && forall o :: 2 * |cos| <= o < |x| ==> y[o] == x[o]
  {
  }

  lemma RotatedIsTurned(k: Kernels, pairing: Pairing, x: Vec, cos: Vec, sin: Vec)
    requires |cos| == |sin| && 2 * |cos| <= |x|
    ensures IsTurned(k, pairing, x, cos, sin, RotatedHead(k, pairing, x, cos, sin))
  {
    var z, half := RotatedHead(k, pairing, x, cos, sin), |cos|;
    forall j | 0 <= j < half
      ensures var (a, b) := if pairing.Adjacent? then (2 * j, 2 * j + 1) else (j, j + half);
              z[a] == k.rotateFirst(x[a], x[b], cos[j], sin[j]) && z[b] == k.rotateSecond(x[a], x[b], cos[j], sin[j])
    {
      PairAt(pairing, half, j);
    }
  }

  // ----- pieces of a vector -----

  lemma AppendedSlot(a: Vec, b: Vec, n: nat, hd: nat, s: nat)
    requires |a| == n * hd && |b| == hd && s <= n
    ensures |a + b| == (n + 1) * hd
    ensures SlotAt(a + b, n + 1, hd, s) == if s == n then b else SlotAt(a, n, hd, s)
  {
    assert (n + 1) * hd == n * hd + hd;
    SlotFits(s, n + 1, hd);
    if s < n {
      SlotFits(s, n, hd);
    }
  }

  lemma {:induction false} SlotsDecide(a: Vec, b: Vec, n: nat, hd: nat)
    requires |a| == |b| == n * hd
    requires forall s :: 0 <= s < n ==> SlotAt(a, n, hd, s) == SlotAt(b, n, hd, s)
    ensures a == b
    decreases n
  {
    if n > 0 {
      var m := n - 1;
      SlotFits(m, n, hd);
      assert m * hd + hd == n * hd;
      var (a', b') := (a[..m * hd], b[..m * hd]);
      forall s | 0 <= s < m
        ensures SlotAt(a', m, hd, s) == SlotAt(b', m, hd, s)
      {
        assert SlotAt(a, n, hd, s) == SlotAt(b, n, hd, s);
        SlotOfFront(a, n, hd, s);
        SlotOfFront(b, n, hd, s);
      }
      SlotsDecide(a', b', m, hd);
      assert SlotAt(a, n, hd, m) == SlotAt(b, n, hd, m);
      assert a == a' + SlotAt(a, n, hd, m) && b == b' + SlotAt(b, n, hd, m);
    } else {
      assert 0 * hd == 0;
    }
  }

  lemma SlotOfFront(a: Vec, n: nat, hd: nat, s: nat)
    requires |a| == n * hd && s + 1 < n
    ensures 0 <= (n - 1) * hd <= |a| && SlotAt(a[..(n - 1) * hd], n - 1, hd, s) == SlotAt(a, n, hd, s)
  {
    assert (n - 1) * hd + hd == n * hd;
    SlotFits(n - 1, n, hd);
    SlotFits(s, n - 1, hd);
    SlotFits(s, n, hd);
  }

  lemma {:induction false} FiniteSlots(a: Vec, n: nat, hd: nat)
    requires |a| == n * hd
    ensures AllFinite(a) <==> forall s :: 0 <= s < n ==> AllFinite(SlotAt(a, n, hd, s))
    decreases n
  {
    hide IsFinite;
    if n > 0 {
      var m := n - 1;
      SlotFits(m, n, hd);
      assert m * hd + hd == n * hd;
      FiniteSlots(a[..m * hd], m, hd);
      FiniteParts(a[..m * hd], SlotAt(a, n, hd, m));
      assert a == a[..m * hd] + SlotAt(a, n, hd, m);
      forall s | 0 <= s < m
        ensures SlotAt(a[..m * hd], m, hd, s) == SlotAt(a, n, hd, s)
      {
        SlotOfFront(a, n, hd, s);
      }
    } else {
      assert 0 * hd == 0;
    }
  }

  /** A piece of a window is that head of the vector it was taken from. */
  lemma {:induction false} WindowSlot(vecs: seq<Vec>, heads: nat, hd: nat, h: nat, j: nat)
    requires h < heads && j < |vecs| && forall i :: 0 <= i < |vecs| ==> |vecs[i]| == heads * hd
    ensures SlotAt(Window(vecs, heads, hd, h), |vecs|, hd, j) == HeadOf(vecs[j], heads, hd, h)
    decreases |vecs|
  {
    hide SlotAt, HeadOf;
    var n := |vecs| - 1;
    AppendedSlot(Window(vecs[..n], heads, hd, h), HeadOf(vecs[n], heads, hd, h), n, hd, j);
    if j < n {
      WindowSlot(vecs[..n], heads, hd, h, j);
    }
  }

  // ----- rotation of all heads -----

  ghost predicate IsRotated(k: Kernels, pairing: Pairing, x: Vec, heads: nat, hd: nat, cos: Vec, sin: Vec, y: Vec) {
    && heads > 0 && hd > 0 && |x| == |y| == heads * hd && 0 < |cos| == |sin| && 2 * |cos| <= hd
    && AllFinite(x) && AllFinite(cos) && AllFinite(sin) && AllFinite(y)
    && forall h :: 0 <= h < heads ==>
         IsTurned(k, pairing, HeadOf(x, heads, hd, h), cos, sin, HeadOf(y, heads, hd, h))
  }

  lemma {:induction false} RotatedSlot(k: Kernels, pairing: Pairing, x: Vec, heads: nat, hd: nat, cos: Vec, sin: Vec,
                                       n: nat, h: nat)
    requires |x| == heads * hd && h < n <= heads && |cos| == |sin| && 2 * |cos| <= hd
    ensures SlotAt(RotatedHeads(k, pairing, x, heads, hd, cos, sin, n), n, hd, h) ==
            RotatedHead(k, pairing, HeadOf(x, heads, hd, h), cos, sin)
    decreases n
  {
    hide SlotAt, HeadOf, RotatedHead;
    AppendedSlot(RotatedHeads(k, pairing, x, heads, hd, cos, sin, n - 1),
                 RotatedHead(k, pairing, HeadOf(x, heads, hd, n - 1), cos, sin), n - 1, hd, h);
    if h < n - 1 {
      RotatedSlot(k, pairing, x, heads, hd, cos, sin, n - 1, h);
    }
  }

  lemma RopeIff(k: Kernels, pairing: Pairing, x: Vec, heads: nat, hd: nat, cos: Vec, sin: Vec, y: Vec)
    ensures Rope(k, pairing, x, heads, hd, cos, sin) == Ok(y) <==> IsRotated(k, pairing, x, heads, hd, cos, sin, y)
  {
    hide IsFinite, IsTurned, SlotAt, RotatedHead, RotatedHeads;
    if heads > 0 && hd > 0 && |x| == |y| == heads * hd && 0 < |cos| == |sin| && 2 * |cos| <= hd {
      var z := RotatedHeads(k, pairing, x, heads, hd, cos, sin, heads);
      forall h | 0 <= h < heads
        ensures SlotAt(z, heads, hd, h) == RotatedHead(k, pairing, HeadOf(x, heads, hd, h), cos, sin)
        ensures SlotAt(y, heads, hd, h) == SlotAt(z, heads, hd, h) <==>
                IsTurned(k, pairing, HeadOf(x, heads, hd, h), cos, sin, HeadOf(y, heads, hd, h))
      {
        RotatedSlot(k, pairing, x, heads, hd, cos, sin, heads, h);
        RotatedHeadIff(k, pairing, HeadOf(x, heads, hd, h), cos, sin, HeadOf(y, heads, hd, h));
      }
      if forall h :: 0 <= h < heads ==> SlotAt(y, heads, hd, h) == SlotAt(z, heads, hd, h) {
        SlotsDecide(y, z, heads, hd);
      }
    }
  }

  // ----- attention of one head -----

  /** The first of the greatest elements. */
  ghost predicate IsTop(s: Vec, top: nat) {
    && top < |s|
    && (forall j :: 0 <= j < |s| ==> !Greater(s[j], s[top]))
    && forall j :: 0 <= j < top ==> Greater(s[top], s[j])
  }

  lemma {:induction false} MaxIsTop(s: Vec, top: nat)
    requires IsTop(s, top) && AllFinite(s)
    ensures MaxOf(s) == s[top]
    decreases |s|
  {
    var n := |s| - 1;
    assert IsFinite(s[n]) && IsFinite(s[top]);
    if top < n {
      MaxIsTop(s[..n], top);
    } else {
      MaxIsGreatest(s[..n]);
      assert n > 0 ==> MaxOf(s[..n]) in s[..n];
    }
  }

  lemma {:induction false} TopExists(s: Vec) returns (top: nat)
    requires s != []
    ensures IsTop(s, top)
    decreases |s|
  {
    var n := |s| - 1;
    if n == 0 {
      top := 0;
    } else {
      top := TopExists(s[..n]);
      assert forall j :: 0 <= j < n ==> s[..n][j] == s[j];
      if Greater(s[n], s[top]) {
        top := n;
      }
    }
  }

  /** Exponentials of the distances from the greatest element, divided by their sum. */
  ghost predicate IsSoftmax(k: Kernels, s: Vec, p: Vec) {
    && |p| == |s| && AllFinite(s) && AllFinite(p)
    && exists top: nat, e: Vec ::
         && AreExponentials(k, s, top, e)
         && IsFinite(k.sum(e)) && !IsZero(k.sum(e))
         && forall j :: 0 <= j < |s| ==> p[j] == k.divide(e[j], k.sum(e))
  }

  ghost predicate AreExponentials(k: Kernels, s: Vec, top: nat, e: Vec) {
    IsTop(s, top) && |e| == |s| && forall j :: 0 <= j < |s| ==> e[j] == k.shiftedExp(s[j], s[top])
  }

  lemma SoftmaxIff(k: Kernels, s: Vec, p: Vec)
    ensures Softmax(k, s) == Ok(p) <==> IsSoftmax(k, s, p)
  {
    hide IsFinite, IsZero, MaxOf, AreExponentials;
    forall top: nat, e: Vec | AreExponentials(k, s, top, e)
      ensures top < |s| && IsTop(s, top)
    {
      TopOfExponentials(k, s, top, e);
    }
    if s != [] && AllFinite(s) {
      var top := TopExists(s);
      var e := Exponentials(k, s);
      OnlyExponentials(k, s, top, e);
      var z := k.sum(e);
      BuildCheckedIff(|s|, (i: nat) => if i < |e| then Checked(k.divide(e[i], z)) else Err(Shape),
                      (i: nat) => if i < |e| then k.divide(e[i], z) else 0, p);
      forall top': nat, e': Vec | AreExponentials(k, s, top', e')
        ensures e' == e
      {
        OnlyExponentials(k, s, top', e');
      }
    }
  }

  lemma TopOfExponentials(k: Kernels, s: Vec, top: nat, e: Vec)
    requires AreExponentials(k, s, top, e)
    ensures top < |s| && IsTop(s, top)
  {
  }

  lemma OnlyExponentials(k: Kernels, s: Vec, top: nat, e: Vec)
    requires AllFinite(s) && IsTop(s, top)
    ensures AreExponentials(k, s, top, e) <==> e == Exponentials(k, s)
  {
    hide MaxOf, IsFinite;
    MaxIsTop(s, top);
  }

  ghost predicate IsScores(k: Kernels, q: Vec, keys: seq<Vec>, s: Vec) {
    && q != [] && |s| == |keys| > 0 && AllFinite(q) && AllFinite(s)
    && forall j :: 0 <= j < |keys| ==> AllFinite(keys[j]) && s[j] == k.score(q, keys[j])
  }

  /** The pieces of a vector. */
  ghost function Pieces(a: Vec, n: nat, hd: nat): (r: seq<Vec>)
    requires |a| == n * hd
    ensures |r| == n && forall j :: 0 <= j < n ==> r[j] == SlotAt(a, n, hd, j)
  {
    seq(n, j requires 0 <= j < n => SlotAt(a, n, hd, j))
  }

  lemma ScoresIff(k: Kernels, q: Vec, keys: Vec, n: nat, s: Vec)
    requires |keys| == n * |q|
    ensures Scores(k, q, keys, n) == Ok(s) <==> IsScores(k, q, Pieces(keys, n, |q|), s)
  {
    hide IsFinite, SlotAt;
    FiniteSlots(keys, n, |q|);
    if q != [] && n > 0 {
      BuildCheckedIff(n, (j: nat) => if j < n then Checked(k.score(q, SlotAt(keys, n, |q|, j))) else Err(Shape),
                      (j: nat) => if j < n then k.score(q, SlotAt(keys, n, |q|, j)) else 0, s);
    }
  }

  /** From zero, one position after another, every sum on the way finite. */
  ghost predicate AreSums(k: Kernels, p: Vec, values: seq<Vec>, hd: nat, sums: seq<Vec>) {
    && |values| == |p| && |sums| == |p| + 1
    && (forall j :: 0 <= j < |p| ==> |values[j]| == hd) && (forall j :: 0 <= j < |sums| ==> |sums[j]| == hd)
    && (forall d :: 0 <= d < hd ==> sums[0][d] == 0)
    && forall j :: 0 <= j < |p| ==> IsNextSum(k, p[j], values[j], sums[j], sums[j + 1])
  }

  ghost predicate IsNextSum(k: Kernels, weight: F32, value: Vec, sum: Vec, next: Vec) {
    && |value| == |sum| == |next|
    && forall d :: 0 <= d < |next| ==> IsFinite(next[d]) && next[d] == k.multiplyAdd(sum[d], weight, value[d])
  }

  ghost predicate IsWeightedSum(k: Kernels, p: Vec, values: seq<Vec>, hd: nat, out: Vec) {
    && AllFinite(p) && (forall j :: 0 <= j < |values| ==> AllFinite(values[j]))
    && exists sums :: AreSums(k, p, values, hd, sums) && out == sums[|p|]
  }

  lemma {:induction false} SumsAccumulate(k: Kernels, p: Vec, values: Vec, hd: nat, sums: seq<Vec>, d: nat, n: nat)
    requires |values| == |p| * hd && d < hd && n <= |p| && AreSums(k, p, Pieces(values, |p|, hd), hd, sums)
    ensures Accumulated(k, p, values, hd, d, n) == Ok(sums[n][d])
    decreases n
  {
    hide IsFinite, SlotAt;
    if n > 0 {
      SumsAccumulate(k, p, values, hd, sums, d, n - 1);
      var (before, j) := (sums[n - 1][d], n - 1);
      assert IsNextSum(k, p[j], Pieces(values, |p|, hd)[j], sums[j], sums[j + 1]);
      AccumulatedTurn(k, p, values, hd, d, j, before);
      CheckedIff(k.multiplyAdd(before, p[j], SlotAt(values, |p|, hd, j)[d]), sums[n][d]);
    }
  }

  lemma {:induction false} EarlierAccumulated(k: Kernels, p: Vec, values: Vec, hd: nat, d: nat, n: nat, m: nat)
    requires |values| == |p| * hd && d < hd && n <= m <= |p| && Accumulated(k, p, values, hd, d, m).Ok?
    ensures Accumulated(k, p, values, hd, d, n).Ok?
  {
    if Accumulated(k, p, values, hd, d, n).Err? {
      AccumulationFails(k, p, values, hd, d, n, m);
    }
  }

  ghost function SumsUpTo(k: Kernels, p: Vec, values: Vec, hd: nat): (r: seq<Vec>)
    requires |values| == |p| * hd && forall d: nat :: d < hd ==> Accumulated(k, p, values, hd, d, |p|).Ok?
    ensures |r| == |p| + 1 && forall j :: 0 <= j < |r| ==> |r[j]| == hd
  {
    seq(|p| + 1, n requires 0 <= n < |p| + 1 =>
      seq<F32>(hd, d requires 0 <= d < hd =>
        EarlierAccumulated(k, p, values, hd, d, n, |p|);
        Accumulated(k, p, values, hd, d, n).value))
  }

  lemma AccumulatedAreSums(k: Kernels, p: Vec, values: Vec, hd: nat)
    requires |values| == |p| * hd && forall d: nat :: d < hd ==> Accumulated(k, p, values, hd, d, |p|).Ok?
    ensures AreSums(k, p, Pieces(values, |p|, hd), hd, SumsUpTo(k, p, values, hd))
  {
    hide IsFinite, SlotAt, Accumulated;
    var sums := SumsUpTo(k, p, values, hd);
    NothingAccumulated(k, p, values, hd);
    forall j | 0 <= j < |p|
      ensures IsNextSum(k, p[j], Pieces(values, |p|, hd)[j], sums[j], sums[j + 1])
    {
      NextSumAt(k, p, values, hd, j);
    }
  }

  lemma NextSumAt(k: Kernels, p: Vec, values: Vec, hd: nat, j: nat)
    requires |values| == |p| * hd && j < |p| && forall d: nat :: d < hd ==> Accumulated(k, p, values, hd, d, |p|).Ok?
    ensures var sums := SumsUpTo(k, p, values, hd);
            IsNextSum(k, p[j], SlotAt(values, |p|, hd, j), sums[j], sums[j + 1])
  {
    hide IsFinite, SlotAt, Accumulated;
    var sums, value := SumsUpTo(k, p, values, hd), SlotAt(values, |p|, hd, j);
    var (sum, next) := (sums[j], sums[j + 1]);
    assert |value| == |sum| == |next| == hd;
    forall d | 0 <= d < hd
      ensures IsFinite(next[d]) && next[d] == k.multiplyAdd(sum[d], p[j], value[d])
    {
      EarlierAccumulated(k, p, values, hd, d, j, |p|);
      EarlierAccumulated(k, p, values, hd, d, j + 1, |p|);
      AccumulatedTurn(k, p, values, hd, d, j, sum[d]);
      CheckedIff(k.multiplyAdd(sum[d], p[j], value[d]), next[d]);
    }
  }

  lemma WeightedIff(k: Kernels, p: Vec, values: Vec, hd: nat, out: Vec)
    requires |p| > 1 && hd > 0 && |values| == |p| * hd
    ensures Weighted(k, p, values, hd) == Ok(out) <==> IsWeightedSum(k, p, Pieces(values, |p|, hd), hd, out)
  {
    hide IsFinite, SlotAt, Accumulated, AreSums;
    FiniteSlots(values, |p|, hd);
    var f := (d: nat) => if d < hd then Accumulated(k, p, values, hd, d, |p|) else Err(NonFinite);
    BuildIff(hd, f, out);
    if Build(hd, f) == Ok(out) {
      forall d: nat | d < hd
        ensures Accumulated(k, p, values, hd, d, |p|) == Ok(out[d])
      {
        assert f(d) == Ok(out[d]);
      }
      AccumulatedAreSums(k, p, values, hd);
      var sums := SumsUpTo(k, p, values, hd);
      assert sums[|p|] == out;
    }
    forall sums | AreSums(k, p, Pieces(values, |p|, hd), hd, sums)
      ensures |sums| == |p| + 1 && |sums[|p|]| == hd
      ensures forall d :: 0 <= d < hd ==> f(d) == Ok(sums[|p|][d])
    {
      SumsShape(k, p, Pieces(values, |p|, hd), hd, sums);
      forall d | 0 <= d < hd
        ensures f(d) == Ok(sums[|p|][d])
      {
        SumsAccumulate(k, p, values, hd, sums, d, |p|);
      }
    }
  }

  lemma SumsShape(k: Kernels, p: Vec, values: seq<Vec>, hd: nat, sums: seq<Vec>)
    requires AreSums(k, p, values, hd, sums)
    ensures |sums| == |p| + 1 && |sums[|p|]| == hd
  {
  }

  /** One position passes its value through; more are weighed by the softmax of their scores. */
  ghost predicate IsAttended(k: Kernels, q: Vec, keys: seq<Vec>, values: seq<Vec>, out: Vec) {
    && |keys| == |values| > 0
    && if |keys| == 1 then out == values[0]
       else exists s, p ::
         IsScores(k, q, keys, s) && IsSoftmax(k, s, p) && IsWeightedSum(k, p, values, |q|, out)
  }

  lemma AttendHeadIff(k: Kernels, q: Vec, keys: Vec, values: Vec, n: nat, out: Vec)
    requires n > 0 && |keys| == |values| == n * |q| && q != []
    ensures AttendHead(k, q, keys, values, n, |q|) == Ok(out) <==>
            IsAttended(k, q, Pieces(keys, n, |q|), Pieces(values, n, |q|), out)
  {
    hide Scores, Softmax, Weighted, IsScores, IsSoftmax, IsWeightedSum, SlotAt;
    if n == 1 {
      assert 1 * |q| == |q|;
      OnlyPiece(values, |q|);
    } else {
      forall s
        ensures Scores(k, q, keys, n) == Ok(s) <==> IsScores(k, q, Pieces(keys, n, |q|), s)
      {
        ScoresIff(k, q, keys, n, s);
      }
      forall s, p
        ensures Softmax(k, s) == Ok(p) <==> IsSoftmax(k, s, p)
      {
        SoftmaxIff(k, s, p);
      }
      forall p: Vec | |p| == n
        ensures Weighted(k, p, values, |q|) == Ok(out) <==> IsWeightedSum(k, p, Pieces(values, n, |q|), |q|, out)
      {
        WeightedIff(k, p, values, |q|, out);
      }
    }
  }

  lemma OnlyPiece(a: Vec, hd: nat)
    requires |a| == 1 * hd
    ensures Pieces(a, 1, hd) == [a]
  {
    SlotFits(0, 1, hd);
    assert 0 * hd == 0 && |a| == hd;
    assert a[0 * hd..0 * hd + hd] == a;
  }

  // ----- attention of all heads -----

  /** One head of what the rows hold. */
  ghost function HeadKeys(c: Config, rows: seq<Row>, h: nat): (r: seq<Vec>)
    requires ValidConfig(c) && ValidRows(c, rows) && h < c.headCountKv
    ensures |r| == |rows|
  {
    seq(|rows|, p requires 0 <= p < |rows| => HeadOf(rows[p].k, c.headCountKv, HeadDim(c), h))
  }

  ghost function HeadValues(c: Config, rows: seq<Row>, h: nat): (r: seq<Vec>)
    requires ValidConfig(c) && ValidRows(c, rows) && h < c.headCountKv
    ensures |r| == |rows|
  {
    seq(|rows|, p requires 0 <= p < |rows| => HeadOf(rows[p].v, c.headCountKv, HeadDim(c), h))
  }

  /** Every query head attends to the key/value head its group shares. */
  ghost predicate IsAttention(m: Model, q: Vec, rows: seq<Row>, attn: Vec)
    requires ValidConfig(m.config) && ValidRows(m.config, rows) && |q| == QLen(m.config)
  {
    var c, hd := m.config, HeadDim(m.config);
    && |attn| == |q|
    && forall h :: 0 <= h < c.headCount ==> HeadAttended(m, q, rows, attn, h)
  }

  ghost predicate HeadAttended(m: Model, q: Vec, rows: seq<Row>, attn: Vec, h: nat)
    requires ValidConfig(m.config) && ValidRows(m.config, rows) && |q| == |attn| == QLen(m.config)
    requires h < m.config.headCount
  {
    var c, hd := m.config, HeadDim(m.config);
    KvHeadFits(c, h);
    var kv := h / (c.headCount / c.headCountKv);
    IsAttended(m.kernels, HeadOf(q, c.headCount, hd, h), HeadKeys(c, rows, kv), HeadValues(c, rows, kv),
               HeadOf(attn, c.headCount, hd, h))
  }

  ghost function OneHead(m: Model, q: Vec, rows: seq<Row>, h: nat): Result<Vec, ModelError>
    requires ValidConfig(m.config) && ValidRows(m.config, rows) && rows != []
    requires |q| == QLen(m.config) && h < m.config.headCount
  {
    var c, hd := m.config, HeadDim(m.config);
    AttendHead(m.kernels, HeadOf(q, c.headCount, hd, h), Window(Keys(rows), c.headCountKv, hd, KvHead(c, h)),
               Window(Values(rows), c.headCountKv, hd, KvHead(c, h)), |rows|, hd)
  }

  lemma OneHeadIff(m: Model, q: Vec, rows: seq<Row>, attn: Vec, h: nat)
    requires ValidConfig(m.config) && ValidRows(m.config, rows) && rows != []
    requires |q| == |attn| == QLen(m.config) && h < m.config.headCount
    ensures OneHead(m, q, rows, h) == Ok(HeadOf(attn, m.config.headCount, HeadDim(m.config), h)) <==>
            HeadAttended(m, q, rows, attn, h)
  {
    hide AttendHead, IsAttended, HeadOf, Window;
    var c, hd, kv := m.config, HeadDim(m.config), KvHead(m.config, h);
    HeadNotEmpty(c);
    var keys, values := Window(Keys(rows), c.headCountKv, hd, kv), Window(Values(rows), c.headCountKv, hd, kv);
    forall p | 0 <= p < |rows|
      ensures SlotAt(keys, |rows|, hd, p) == HeadOf(rows[p].k, c.headCountKv, hd, kv)
      ensures SlotAt(values, |rows|, hd, p) == HeadOf(rows[p].v, c.headCountKv, hd, kv)
    {
      WindowSlot(Keys(rows), c.headCountKv, hd, kv, p);
      WindowSlot(Values(rows), c.headCountKv, hd, kv, p);
    }
    assert Pieces(keys, |rows|, hd) == HeadKeys(c, rows, kv);
    assert Pieces(values, |rows|, hd) == HeadValues(c, rows, kv);
    AttendHeadIff(m.kernels, HeadOf(q, c.headCount, hd, h), keys, values, |rows|, HeadOf(attn, c.headCount, hd, h));
  }

  lemma HeadNotEmpty(c: Config)
    requires ValidConfig(c)
    ensures HeadDim(c) > 0
  {
  }

  lemma {:induction false} FirstHeadsIff(m: Model, q: Vec, rows: seq<Row>, n: nat, out: Vec)
    requires ValidConfig(m.config) && ValidRows(m.config, rows) && rows != []
    requires |q| == QLen(m.config) && n <= m.config.headCount && |out| == n * HeadDim(m.config)
    ensures AttendHeads(m, q, rows, n) == Ok(out) <==>
            forall h :: 0 <= h < n ==> OneHead(m, q, rows, h) == Ok(SlotAt(out, n, HeadDim(m.config), h))
    decreases n
  {
    hide AttendHead, SlotAt, HeadOf, Window, HeadDim;
    var hd := HeadDim(m.config);
    if n == 0 {
      assert 0 * hd == 0;
    } else {
      var last := n - 1;
      assert last * hd + hd == n * hd && last * hd >= 0;
      var (front, back) := (out[..last * hd], out[last * hd..]);
      assert out == front + back;
      FirstHeadsIff(m, q, rows, last, front);
      forall h | 0 <= h < n
        ensures SlotAt(out, n, hd, h) == if h == last then back else SlotAt(front, last, hd, h)
      {
        AppendedSlot(front, back, last, hd, h);
      }
      HeadsTurn(m, q, rows, last, front, back);
      assert SlotAt(out, n, hd, last) == back;
    }
  }

  lemma HeadsTurn(m: Model, q: Vec, rows: seq<Row>, n: nat, front: Vec, back: Vec)
    requires ValidConfig(m.config) && ValidRows(m.config, rows) && rows != []
    requires |q| == QLen(m.config) && n < m.config.headCount
    requires |front| == n * HeadDim(m.config) && |back| == HeadDim(m.config)
    ensures AttendHeads(m, q, rows, n + 1) == Ok(front + back) <==>
            AttendHeads(m, q, rows, n) == Ok(front) && OneHead(m, q, rows, n) == Ok(back)
  {
    hide AttendHead, HeadOf, Window;
    var (prev, head) := (AttendHeads(m, q, rows, n), OneHead(m, q, rows, n));
    if prev.Ok? && head.Ok? {
      assert AttendHeads(m, q, rows, n + 1) == Ok(prev.value + head.value);
      if prev.value + head.value == front + back {
        assert (prev.value + head.value)[..|front|] == prev.value && (front + back)[..|front|] == front;
        assert (prev.value + head.value)[|front|..] == head.value && (front + back)[|front|..] == back;
      }
    }
  }

  lemma AttentionIff(m: Model, q: Vec, rows: seq<Row>, attn: Vec)
    requires ValidConfig(m.config) && ValidRows(m.config, rows) && rows != [] && |q| == QLen(m.config)
    ensures AttendHeads(m, q, rows, m.config.headCount) == Ok(attn) <==> IsAttention(m, q, rows, attn)
  {
    hide AttendHeads, OneHead, HeadAttended, HeadDim, SlotAt;
    if |attn| == |q| {
      FirstHeadsIff(m, q, rows, m.config.headCount, attn);
      forall h | 0 <= h < m.config.headCount
        ensures OneHead(m, q, rows, h) == Ok(SlotAt(attn, m.config.headCount, HeadDim(m.config), h)) <==>
                HeadAttended(m, q, rows, attn, h)
      {
        OneHeadIff(m, q, rows, attn, h);
      }
    }
  }
}
