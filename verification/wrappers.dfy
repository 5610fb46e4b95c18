/** Failure-compatible wrappers shared by every module of the model. */
module Wrappers {

  datatype Option<+T> = None | Some(value: T)

  /** A computation that either produced a value or was rejected with an error. */
  datatype Result<+T, +E> = Success(value: T) | Failure(error: E)
}
