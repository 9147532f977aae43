/** Option and Result, the two failure-carrying shapes the model uses. */
module Wrappers {

  /** A value that may be missing: Java's `null` and `Optional.empty()`. */
  datatype Option<+T> = None | Some(value: T)

  /** The outcome of an operation that either returns a value or throws. */
  datatype Result<+R, +E> = Success(value: R) | Failure(error: E)
}
