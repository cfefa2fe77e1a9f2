/** Option and Result, used for Python's `None` and for the exceptions the
    reader raises. */
module Wrappers {

  datatype Option<T> = None | Some(value: T)

  datatype Result<T, E> = Ok(value: T) | Err(error: E)

  /** `done` followed by the successful result `rest`; an error passes through. */
  function Prepend<T, E>(done: seq<T>, rest: Result<seq<T>, E>): Result<seq<T>, E>
  {
    match rest
    case Ok(more) => Ok(done + more)
    case Err(e) => Err(e)
  }

  /** Prepending in two steps is prepending the concatenation. */
  lemma PrependTwice<T, E>(a: seq<T>, b: seq<T>, r: Result<seq<T>, E>)
    ensures Prepend(a, Prepend(b, r)) == Prepend(a + b, r)
  {
    if r.Ok? {
      assert a + (b + r.value) == a + b + r.value;
    }
  }
}
