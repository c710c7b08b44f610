/** Failure-carrying values used across the model: an optional value and a
    success-or-error result. */
module Wrappers {

  /** A value that may be absent (JavaScript's `null` / `undefined`). */
  datatype Option<+T> = None | Some(value: T)

  /** The outcome of an operation that either succeeds with a value or fails
      with an error (a thrown exception in JavaScript). */
  datatype Result<+R, +E> = Success(value: R) | Failure(error: E)
}
