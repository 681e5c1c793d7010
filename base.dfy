/** Failure-carrying results shared by every phase of the interpreter. */
module Base {

  datatype Option<T> = None | Some(value: T)

  /** The outcome of a step that can throw: the value it returns, or the error it raises.
      A failed step propagates its error with `:-`, as a thrown exception would. */
  datatype Result<T, E> = Ok(value: T) | Err(error: E)
  {
    predicate IsFailure() { Err? }

    function PropagateFailure<U>(): Result<U, E>
      requires Err?
    {
      Err(error)
    }

    function Extract(): T
      requires Ok?
    {
      value
    }
  }

  /** A list computed so far placed ahead of the result for the rest of the list: the
      rest's error if it failed, the whole list otherwise. */
  function Prepend<T, E>(acc: seq<T>, rest: Result<seq<T>, E>): Result<seq<T>, E>
  {
    match rest
    case Ok(vs) => Ok(acc + vs)
    case Err(e) => Err(e)
  }

  lemma PrependNothing<T, E>(rest: Result<seq<T>, E>)
    ensures Prepend([], rest) == rest
  {
    if rest.Ok? { assert [] + rest.value == rest.value; }
  }

  lemma PrependTwice<T, E>(a: seq<T>, b: seq<T>, rest: Result<seq<T>, E>)
    ensures Prepend(a, Prepend(b, rest)) == Prepend(a + b, rest)
  {
    if rest.Ok? { assert a + (b + rest.value) == (a + b) + rest.value; }
  }
}
