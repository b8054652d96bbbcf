/** Failure-carrying datatypes used for the error paths of the model. */
module Wrappers {

  /** A value that may be missing: an unreadable file, a failed API call. */
  datatype Option<+T> = None | Some(value: T)

  /** The result of an operation that may raise instead of returning. */
  datatype Result<+T, +E> = Success(value: T) | Failure(error: E)

  /** The result of an operation that returns nothing but may raise. */
  datatype Outcome<+E> = Pass | Fail(error: E)
}
