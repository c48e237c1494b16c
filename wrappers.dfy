/** Option and Result, the two failure-carrying datatypes the rest of the model uses. */
module Wrappers {

  /** A value that may be absent (JavaScript's `null` / `undefined`). */
  datatype Option<+T> = None | Some(value: T)

  /** The outcome of an operation that may fail (a resolved or rejected promise, a thrown error). */
  datatype Result<+T, +E> = Success(value: T) | Failure(error: E)
}
