/** Failure-compatible wrappers used across the model. */
module Wrappers {

  /** A value that may be absent (a JavaScript `undefined` field). */
  datatype Option<+T> = None | Some(value: T)

  /** Either a computed value or the reason it could not be computed. */
  datatype Result<+R, +E> = Success(value: R) | Failure(error: E)
}
