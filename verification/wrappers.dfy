/** Failure-compatible wrappers: an optional value and a success-or-error result. */
module Wrappers {

  /** A value that may be absent (a Python `None` default argument). */
  datatype Option<+T> = None | Some(value: T)

  /** The outcome of an operation that can raise: a value, or the error it raised. */
  datatype Result<+R, +E> = Success(value: R) | Failure(error: E) {

    predicate IsFailure() {
      Failure?
    }

    function PropagateFailure<U>(): (r: Result<U, E>)
      requires Failure?
    {
      Failure(error)
    }

    function Extract(): (r: R)
      requires Success?
    {
      value
    }
  }
}
