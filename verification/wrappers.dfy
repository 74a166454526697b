/** Option and Result, the two failure-compatible wrappers the model uses
    in place of Rust's `Option<T>` and `Result<T, E>`. */
module Wrappers {

  datatype Option<+T> = None | Some(value: T)

  datatype Result<+T, +E> = Ok(value: T) | Err(error: E) {

    predicate IsFailure() {
      Err?
    }

    function PropagateFailure<U>(): Result<U, E>
      requires Err?
    {
      Err(error)
    }

    function Extract(): T
      requires Ok?
    {
      value
    }
  }

  /** Rust's `Option::map`, for the common case of an identity-shaped copy. */
  function MapOption<T, U>(o: Option<T>, f: T -> U): (r: Option<U>)
    ensures r.Some? <==> o.Some?
    ensures o.Some? ==> r.value == f(o.value)
  {
    match o
    case None => None
    case Some(v) => Some(f(v))
  }
}
