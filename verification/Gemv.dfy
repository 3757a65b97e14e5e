/** Matrix rows computed in parallel: chunks of rows, one task each, in any interleaving. */
module Gemv {
  import opened Bits
  import opened Outcomes
  import opened Llama

  // ----- chunks -----

  /** The number of threads asked for, at least one and at most one for each row. */
  function Threads(requested: nat, rows: nat): (t: nat)
    ensures 1 <= t && (rows > 0 ==> t <= rows)
  {
    var most := if rows > 1 then rows else 1;
    if requested < 1 then 1 else if requested > most then most else requested
  }

  function CeilDiv(a: nat, b: nat): nat
    requires b > 0
  {
    a / b + if a % b == 0 then 0 else 1
  }

  lemma CeilCovers(a: nat, b: nat)
    requires b > 0
    ensures CeilDiv(a, b) * b >= a && (a > 0 ==> CeilDiv(a, b) > 0)
    ensures forall k :: 0 <= k < CeilDiv(a, b) ==> k * b < a
  {
    var q := a / b;
    assert a == b * q + a % b;
    assert (q + 1) * b == q * b + b;
    forall k | 0 <= k < CeilDiv(a, b)
      ensures k * b < a
    {
      if k < q {
        ProductMonotone(b, k + 1, q);
        assert (k + 1) * b == k * b + b;
      }
    }
  }

  /** With one thread or one row there is one chunk, and with no rows there is none. */
  function ChunkLen(rows: nat, requested: nat): (len: nat)
    ensures len > 0
  {
    CeilCovers(rows, Threads(requested, rows));
    if rows == 0 then 1 else CeilDiv(rows, Threads(requested, rows))
  }

  /** A chunk is the rows divided by the threads, rounded up; there are as many threads as asked for, but at least one
      and no more than rows. */
  lemma ChunksAreCeilings(rows: nat, requested: nat)
    requires rows > 0
    ensures var len := ChunkLen(rows, requested);
            var t := if requested == 0 then 1 else if requested > rows then rows else requested;
            (len - 1) * t < rows <= len * t
  {
    CeilCovers(rows, Threads(requested, rows));
  }

  /** The rows of chunk c are c * len, c * len + 1, ..., as many as there are up to len. */
  ghost predicate InChunk(rows: nat, len: nat, c: nat, row: nat) {
    c * len <= row < c * len + len && row < rows
  }

  function ChunkOf(len: nat, row: nat): (c: nat)
    requires len > 0
  {
    Quotient(row, len);
    row / len
  }

  function OffsetOf(len: nat, row: nat): (k: nat)
    requires len > 0
    ensures k < len
  {
    row % len
  }

  lemma Quotient(row: nat, len: nat)
    requires len > 0
    ensures row / len >= 0 && row == row / len * len + row % len
  {
    assert row == len * (row / len) + row % len;
  }

  lemma RowDigits(len: nat, row: nat, c: nat, k: nat)
    requires len > 0 && k < len
    ensures row == ChunkOf(len, row) * len + OffsetOf(len, row)
    ensures row == c * len + k <==> ChunkOf(len, row) == c && OffsetOf(len, row) == k
  {
    Quotient(row, len);
    if row == c * len + k {
      QuotientUnique(row, len, c, k);
    }
  }

  /** Every row is in exactly one chunk, and no chunk is empty. */
  lemma RowsArePartitioned(rows: nat, len: nat, row: nat)
    requires len > 0 && row < rows
    ensures ChunkOf(len, row) < CeilDiv(rows, len)
    ensures forall c: nat :: InChunk(rows, len, c, row) <==> c == ChunkOf(len, row)
    ensures forall c: nat :: c < CeilDiv(rows, len) ==> InChunk(rows, len, c, c * len)
  {
    var q := row / len;
    assert row == len * q + row % len;
    CeilCovers(rows, len);
    if q >= CeilDiv(rows, len) {
      ProductMonotone(len, CeilDiv(rows, len), q);
    }
    forall c: nat
      ensures InChunk(rows, len, c, row) <==> c == q
    {
      if InChunk(rows, len, c, row) {
        QuotientUnique(row, len, c, row - c * len);
      }
    }
  }

  // ----- tasks in any order -----

  /** The shared output, how many rows each chunk's task has done, and how it failed if it has. */
  datatype Machine = Machine(out: Vec, done: seq<nat>, failed: seq<Option<ModelError>>)

  function Initial(rows: nat, len: nat, stale: Vec): Machine
    requires len > 0
  {
    var n := CeilDiv(rows, len);
    Machine(stale, seq(n, _ => 0), seq(n, _ => None))
  }

  predicate WellShaped(rows: nat, len: nat, s: Machine) {
    len > 0 && |s.out| == rows && |s.done| == |s.failed| == CeilDiv(rows, len)
  }

  /** A task that has rows left and has not failed. */
  predicate CanStep(rows: nat, len: nat, s: Machine, c: nat)
    requires WellShaped(rows, len, s)
  {
    c < |s.done| && s.failed[c].None? && s.done[c] < len && c * len + s.done[c] < rows
  }

  /** The next row of chunk c. */
  function Step(rows: nat, len: nat, f: RowKernel, s: Machine, c: nat): Machine
    requires WellShaped(rows, len, s) && CanStep(rows, len, s, c)
  {
    var row := c * len + s.done[c];
    match FiniteRow(f, row)
    case Err(e) => s.(failed := s.failed[c := Some(e)])
    case Ok(value) => s.(out := s.out[row := value], done := s.done[c := s.done[c] + 1])
  }

  ghost predicate Steps(rows: nat, len: nat, f: RowKernel, s: Machine, t: Machine) {
    WellShaped(rows, len, s) && exists c :: CanStep(rows, len, s, c) && t == Step(rows, len, f, s, c)
  }

  /** Rows written by any tasks in any order. */
  ghost predicate IsRun(rows: nat, len: nat, f: RowKernel, stale: Vec, run: seq<Machine>) {
    && run != [] && len > 0 && run[0] == Initial(rows, len, stale)
    && forall i :: 0 < i < |run| ==> Steps(rows, len, f, run[i - 1], run[i])
  }

  /** All tasks have succeeded, or one has failed; the others may have been stopped anywhere. */
  ghost predicate Ends(rows: nat, len: nat, s: Machine, r: Result<(), ModelError>) {
    && WellShaped(rows, len, s)
    && match r
       case Ok(_) => forall c :: 0 <= c < |s.done| ==> s.failed[c].None? && !CanStep(rows, len, s, c)
       case Err(e) => exists c :: 0 <= c < |s.failed| && s.failed[c] == Some(e)
  }

  ghost predicate RowDone(len: nat, f: RowKernel, s: Machine, row: nat)
    requires len > 0 && row < |s.out| && ChunkOf(len, row) < |s.done|
  {
    OffsetOf(len, row) < s.done[ChunkOf(len, row)] ==> FiniteRow(f, row) == Ok(s.out[row])
  }

  ghost predicate Failure(rows: nat, len: nat, f: RowKernel, s: Machine, c: nat)
    requires c < |s.failed|
  {
    s.failed[c].Some? ==> exists row: nat :: row < rows && FiniteRow(f, row).Err?
  }

  ghost predicate Consistent(rows: nat, len: nat, f: RowKernel, s: Machine) {
    && WellShaped(rows, len, s)
    && (forall row: nat :: row < rows ==> ChunkOf(len, row) < |s.done| && RowDone(len, f, s, row))
    && forall c :: 0 <= c < |s.failed| ==> Failure(rows, len, f, s, c)
  }

  lemma InitialIsConsistent(rows: nat, len: nat, f: RowKernel, stale: Vec)
    requires len > 0 && |stale| == rows
    ensures Consistent(rows, len, f, Initial(rows, len, stale))
  {
    hide CeilDiv, FiniteRow;
    var s := Initial(rows, len, stale);
    forall row: nat | row < rows
      ensures ChunkOf(len, row) < |s.done| && RowDone(len, f, s, row)
    {
      RowsArePartitioned(rows, len, row);
    }
  }

  lemma StepIsConsistent(rows: nat, len: nat, f: RowKernel, s: Machine, c: nat)
    requires Consistent(rows, len, f, s) && CanStep(rows, len, s, c)
    ensures Consistent(rows, len, f, Step(rows, len, f, s, c))
  {
    hide FiniteRow, ChunkOf, OffsetOf, CeilDiv;
    var t, k := Step(rows, len, f, s, c), s.done[c];
    forall row: nat | row < rows
      ensures ChunkOf(len, row) < |t.done| && RowDone(len, f, t, row)
    {
      assert RowDone(len, f, s, row);
      RowDigits(len, row, c, k);
    }
    forall k | 0 <= k < |t.failed|
      ensures Failure(rows, len, f, t, k)
    {
      assert Failure(rows, len, f, s, k);
    }
  }

  lemma {:induction false} RunIsConsistent(rows: nat, len: nat, f: RowKernel, stale: Vec, run: seq<Machine>)
    requires |stale| == rows && IsRun(rows, len, f, stale, run)
    ensures Consistent(rows, len, f, run[|run| - 1])
    decreases |run|
  {
    hide Step, Consistent, Initial;
    var n := |run| - 1;
    if n == 0 {
      InitialIsConsistent(rows, len, f, stale);
    } else {
      forall i | 0 < i < n
        ensures Steps(rows, len, f, run[..n][i - 1], run[..n][i])
      {
        assert Steps(rows, len, f, run[i - 1], run[i]);
      }
      RunIsConsistent(rows, len, f, stale, run[..n]);
      assert Steps(rows, len, f, run[n - 1], run[n]);
      var c :| CanStep(rows, len, run[n - 1], c) && run[n] == Step(rows, len, f, run[n - 1], c);
      StepIsConsistent(rows, len, f, run[n - 1], c);
    }
  }

  /** For every number of threads and every interleaving: the tasks succeed exactly when the sequential loop does, and
      then leave the same output. */
  lemma ParallelIsSequential(rows: nat, requested: nat, f: RowKernel, stale: Vec, run: seq<Machine>,
                             r: Result<(), ModelError>)
    requires |stale| == rows
    requires IsRun(rows, ChunkLen(rows, requested), f, stale, run)
    requires Ends(rows, ChunkLen(rows, requested), run[|run| - 1], r)
    ensures r.Ok? <==> Sequential(rows, f).Ok?
    ensures r.Ok? ==> Sequential(rows, f) == Ok(run[|run| - 1].out)
  {
    hide FiniteRow;
    var len, s := ChunkLen(rows, requested), run[|run| - 1];
    RunIsConsistent(rows, len, f, stale, run);
    if r.Ok? {
      forall row: nat | row < rows
        ensures FiniteRow(f, row) == Ok(s.out[row])
      {
        FinishedRow(rows, len, f, s, row);
      }
      BuildSucceeds(rows, (r: nat) => FiniteRow(f, r), s.out);
    } else {
      var c :| 0 <= c < |s.failed| && s.failed[c] == Some(r.error);
      assert Failure(rows, len, f, s, c);
      var row: nat :| row < rows && FiniteRow(f, row).Err?;
      BuildFails(rows, (r: nat) => FiniteRow(f, r), row);
    }
  }

  lemma FinishedRow(rows: nat, len: nat, f: RowKernel, s: Machine, row: nat)
    requires Consistent(rows, len, f, s) && Ends(rows, len, s, Ok(())) && row < rows
    ensures FiniteRow(f, row) == Ok(s.out[row])
  {
    hide ChunkOf, OffsetOf, CeilDiv, FiniteRow;
    RowDigits(len, row, 0, 0);
    assert RowDone(len, f, s, row);
    assert !CanStep(rows, len, s, ChunkOf(len, row));
  }
}
