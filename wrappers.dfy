/** Option and Result datatypes shared by the modules. */
module Wrappers {
  /** A value that may be absent (PHP's NULL). */
  datatype Option<+T> = None | Some(value: T)

  /** The outcome of an operation that either yields a value or raises an error. */
  datatype Result<+T, +E> = Success(value: T) | Failure(error: E)
}
