/** Failure-compatible wrapper types shared by the whole model. */
module Wrappers {

  /** A value that may be absent (a JavaScript `undefined`). */
  datatype Option<+T> = None | Some(value: T)

  /** The outcome of an operation that can fail instead of terminating the process. */
  datatype Result<+T, +E> = Success(value: T) | Failure(error: E) {
    predicate IsFailure() { Failure? }

    function PropagateFailure<U>(): Result<U, E>
      requires Failure?
    {
      Failure(error)
    }

    function Extract(): T
      requires Success?
    {
      value
    }
  }
}
