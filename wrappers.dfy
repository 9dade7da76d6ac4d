/** Failure-carrying values shared by the configuration and request modules. */
module Wrappers {

  /** A value that may be absent, as Go's `value, ok` lookups report it. */
  datatype Option<+T> = None | Some(value: T)

  /** The outcome of an operation that either yields a value or fails with an error. */
  datatype Result<+R, +E> = Success(value: R) | Failure(error: E)
}
