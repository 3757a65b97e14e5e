/** Where the sliding context window starts: step by step, in closed form, and what the rollovers cost. */
module Windows {
  import opened Bits
  import opened Outcomes

  datatype WindowError = EmptyWindow | ExceedsModel | OverlapTooLarge

  function ValidateWindow(nCtx: nat, overlap: nat, modelCtx: nat): Result<(), WindowError> {
    if nCtx == 0 then Err(EmptyWindow)
    else if nCtx > modelCtx then Err(ExceedsModel)
    else if overlap >= nCtx then Err(OverlapTooLarge)
    else Ok(())
  }

  function SaturatingSub(a: nat, b: nat): nat {
    if a < b then 0 else a - b
  }

  function NextWindowStart(pos: nat, windowStart: nat, nCtx: nat, overlap: nat): nat {
    if SaturatingSub(pos, windowStart) >= nCtx then SaturatingSub(pos, overlap) else windowStart
  }

  /** The start after one step at each of the positions 0 to n - 1. */
  function PrefixStart(n: nat, nCtx: nat, overlap: nat): (start: nat)
    requires overlap < nCtx
    ensures start <= n && (n > 0 ==> n - start <= nCtx)
  {
    if n == 0 then 0 else NextWindowStart(n - 1, PrefixStart(n - 1, nCtx, overlap), nCtx, overlap)
  }

  method WindowStartForEncodedPrefix(encodedTokens: nat, nCtx: nat, overlap: nat) returns (start: nat)
    requires overlap < nCtx
    ensures start == PrefixStart(encodedTokens, nCtx, overlap)
  {
    start := 0;
    for pos := 0 to encodedTokens
      invariant start == PrefixStart(pos, nCtx, overlap)
    {
      start := NextWindowStart(pos, start, nCtx, overlap);
    }
  }

  /** The start from which the symbol after n tokens is coded. */
  function SyncedStart(n: nat, nCtx: nat, overlap: nat): (start: nat)
    requires overlap < nCtx
    ensures start <= n && n - start < nCtx
    ensures start == PrefixStart(n, nCtx, overlap) || start == n - overlap
  {
    NextWindowStart(n, PrefixStart(n, nCtx, overlap), nCtx, overlap)
  }

  /** Stepping again at the same position changes nothing. */
  lemma SyncIsIdempotent(n: nat, nCtx: nat, overlap: nat)
    requires overlap < nCtx
    ensures NextWindowStart(n, SyncedStart(n, nCtx, overlap), nCtx, overlap) == SyncedStart(n, nCtx, overlap)
    ensures PrefixStart(n + 1, nCtx, overlap) == SyncedStart(n, nCtx, overlap)
  {
  }

  // ----- closed form -----

  function ClosedStart(pos: nat, nCtx: nat, overlap: nat): int
    requires overlap < nCtx
  {
    if pos < nCtx then 0 else (1 + (pos - nCtx) / (nCtx - overlap)) * (nCtx - overlap)
  }

  /** The window moves by whole strides of nCtx - overlap, at the first position that needs it. */
  lemma {:induction false} StartIsClosedForm(pos: nat, nCtx: nat, overlap: nat)
    requires overlap < nCtx
    ensures SyncedStart(pos, nCtx, overlap) == ClosedStart(pos, nCtx, overlap)
    ensures SyncedStart(pos, nCtx, overlap) ==
            if pos < nCtx then 0 else (1 + (pos - nCtx) / (nCtx - overlap)) * (nCtx - overlap)
  {
    if pos > 0 {
      StartIsClosedForm(pos - 1, nCtx, overlap);
      SyncIsIdempotent(pos - 1, nCtx, overlap);
      if pos >= nCtx {
        NextStride(pos - nCtx, nCtx - overlap);
      }
    }
  }

  /** How the number of whole strides in a distance grows. */
  lemma NextStride(distance: nat, stride: nat)
    requires stride > 0
    ensures distance == 0 ==> distance / stride == 0
    ensures var q := distance / stride;
            && q >= 0 && q * stride <= distance < q * stride + stride
            && (1 + q) * stride == q * stride + stride
            && (distance > 0 ==>
                  var p := (distance - 1) / stride;
                  && (1 + p) * stride == p * stride + stride
                  && p * stride <= distance - 1 < p * stride + stride
                  && q == (if distance == p * stride + stride then p + 1 else p))
  {
    Divided(distance, stride);
    if distance > 0 {
      Divided(distance - 1, stride);
      NextQuotient(distance, stride, (distance - 1) / stride);
    }
  }

  lemma NextQuotient(distance: nat, stride: nat, p: nat)
    requires stride > 0 && distance > 0 && p * stride <= distance - 1 < p * stride + stride
    ensures distance / stride == if distance == p * stride + stride then p + 1 else p
  {
    if distance == p * stride + stride {
      assert (p + 1) * stride == p * stride + stride;
      QuotientUnique(distance, stride, p + 1, 0);
    } else {
      QuotientUnique(distance, stride, p, distance - p * stride);
    }
  }

  lemma Divided(a: nat, b: nat)
    requires b > 0
    ensures a / b >= 0 && (a == 0 ==> a / b == 0)
    ensures a / b * b <= a < a / b * b + b
    ensures (1 + a / b) * b == a / b * b + b
  {
    assert a == b * (a / b) + a % b;
  }

  // ----- what the window costs -----

  /** How often the window moves before n tokens are in. */
  function Rollovers(n: nat, nCtx: nat, overlap: nat): nat
    requires overlap < nCtx
  {
    if n == 0 then 0
    else
      Rollovers(n - 1, nCtx, overlap) +
      (if PrefixStart(n, nCtx, overlap) != PrefixStart(n - 1, nCtx, overlap) then 1 else 0)
  }

  /** Forward steps for n tokens: one for each token, and a replay of the overlap at each rollover; the last rollover
      counted is the one after the n tokens if `synced`, and the one before the last of them otherwise. */
  function ForwardSteps(n: nat, synced: bool, nCtx: nat, overlap: nat): nat
    requires overlap < nCtx
  {
    n + overlap * Rollovers(if synced then n + 1 else n, nCtx, overlap)
  }

  lemma SyncSteps(n: nat, nCtx: nat, overlap: nat)
    requires overlap < nCtx
    ensures ForwardSteps(n, true, nCtx, overlap) ==
            ForwardSteps(n, false, nCtx, overlap) +
            (if SyncedStart(n, nCtx, overlap) != PrefixStart(n, nCtx, overlap) then overlap else 0)
    ensures ForwardSteps(n + 1, false, nCtx, overlap) == ForwardSteps(n, true, nCtx, overlap) + 1
  {
    SyncIsIdempotent(n, nCtx, overlap);
    var before := Rollovers(n, nCtx, overlap);
    assert overlap * (before + 1) == overlap * before + overlap;
  }

  lemma NoStepsAtStart(nCtx: nat, overlap: nat)
    requires overlap < nCtx
    ensures PrefixStart(0, nCtx, overlap) == SyncedStart(0, nCtx, overlap) == 0
    ensures forall synced :: ForwardSteps(0, synced, nCtx, overlap) == 0
  {
    assert Rollovers(1, nCtx, overlap) == 0;
  }

  /** Every rollover moves the window by one stride. */
  lemma {:induction false} StartCountsRollovers(n: nat, nCtx: nat, overlap: nat)
    requires overlap < nCtx
    ensures PrefixStart(n, nCtx, overlap) == Rollovers(n, nCtx, overlap) * (nCtx - overlap)
  {
    if n > 0 {
      StartCountsRollovers(n - 1, nCtx, overlap);
      OneMoreStride(Rollovers(n - 1, nCtx, overlap), nCtx - overlap);
      RollsWhenFull(n - 1, nCtx, overlap);
    }
  }

  lemma OneMoreStride(r: nat, stride: nat)
    ensures (r + 1) * stride == r * stride + stride
  {
  }

  /** The steps in closed form: one for each token, and the overlap again whenever a stride is complete. */
  lemma StepsInClosedForm(n: nat, nCtx: nat, overlap: nat)
    requires overlap < nCtx
    ensures ForwardSteps(n, true, nCtx, overlap) ==
            n + overlap * if n < nCtx then 0 else 1 + (n - nCtx) / (nCtx - overlap)
  {
    hide Rollovers;
    StartIsClosedForm(n, nCtx, overlap);
    SyncIsIdempotent(n, nCtx, overlap);
    StartCountsRollovers(n + 1, nCtx, overlap);
    SameStrides(Rollovers(n + 1, nCtx, overlap), if n < nCtx then 0 else 1 + (n - nCtx) / (nCtx - overlap),
                nCtx - overlap);
  }

  lemma SameStrides(a: int, b: int, stride: nat)
    requires stride > 0 && a * stride == b * stride
    ensures a == b
  {
    assert (a - b) * stride == 0;
  }

  /** The window is full, never more than full, when it moves. */
  lemma RollsWhenFull(n: nat, nCtx: nat, overlap: nat)
    requires overlap < nCtx
    ensures n - PrefixStart(n, nCtx, overlap) <= nCtx
    ensures PrefixStart(n + 1, nCtx, overlap) ==
            PrefixStart(n, nCtx, overlap) + if n - PrefixStart(n, nCtx, overlap) == nCtx then nCtx - overlap else 0
  {
  }

  /** With the codec's choice of overlap the replays cost at most a third more. */
  lemma AtMostAThirdMore(n: nat, synced: bool, nCtx: nat)
    requires nCtx > 0
    ensures 3 * ForwardSteps(n, synced, nCtx, nCtx / 4) <= 4 * n
  {
    hide Rollovers, PrefixStart;
    var overlap := nCtx / 4;
    var last := if synced then n + 1 else n;
    StartCountsRollovers(last, nCtx, overlap);
    SyncIsIdempotent(n, nCtx, overlap);
    ReplaysFit(Rollovers(last, nCtx, overlap), overlap, nCtx - overlap);
  }

  lemma ReplaysFit(r: nat, overlap: nat, stride: nat)
    requires 3 * overlap <= stride
    ensures 3 * (overlap * r) <= r * stride
  {
    ProductMonotone(r, 3 * overlap, stride);
  }
}
