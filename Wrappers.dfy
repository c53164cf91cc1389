/** Failure-carrying values used for the exceptions of the ray-walk API. */
module Wrappers {

  datatype Option<+T> = None | Some(value: T)

  /** A value or the error that the source would have thrown instead of producing it. */
  datatype Result<+T, +E> = Success(value: T) | Failure(error: E)

  /** The outcome of an operation that produces no value but may throw. */
  datatype Outcome<+E> = Pass | Fail(error: E)
}
