/** Failure-compatible wrappers used across the model. */
module Wrappers {

  /** A value that may be missing (`null` / `undefined` in the source). */
  datatype Option<+T> = None | Some(value: T)

  /** The outcome of an operation that can throw: the value, or the error message. */
  datatype Result<+T, +E> = Success(value: T) | Failure(error: E)
}
