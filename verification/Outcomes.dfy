/** The source's optional values and error returns. */
module Outcomes {
  datatype Option<+T> = None | Some(value: T)

  datatype Result<+T, +E> = Ok(value: T) | Err(error: E) {
    predicate IsFailure() {
      Err?
    }

    function PropagateFailure<U>(): Result<U, E>
      requires Err?
    {
      Err(error)
    }

    function Extract(): T
      requires Ok?
    {
      value
    }
  }

  /** A partial result followed by the result of the rest. */
  function Prefixed<T, E>(done: seq<T>, rest: Result<seq<T>, E>): Result<seq<T>, E> {
    if rest.Err? then rest else Ok(done + rest.value)
  }

  lemma PrefixedTwice<T, E>(a: seq<T>, b: seq<T>, rest: Result<seq<T>, E>)
    ensures Prefixed(a, Prefixed(b, rest)) == Prefixed(a + b, rest)
  {
    assert rest.Ok? ==> a + (b + rest.value) == a + b + rest.value;
  }

  lemma PrefixedError<T, E>(done: seq<T>, e: E)
    ensures Prefixed(done, Err(e)) == Err(e)
  {
  }

  lemma PrefixedNothing<T, E>(r: Result<seq<T>, E>)
    ensures Prefixed([], r) == r
  {
    assert r.Ok? ==> [] + r.value == r.value;
  }
}
