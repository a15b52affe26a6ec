/** Optional values and error results shared by the other modules. */
module Wrappers {

  /** A value that may be absent, as PHP's `null` return. */
  datatype Option<+T> = None | Some(value: T)

  /** The outcome of an operation that may throw. */
  datatype Result<+R, +E> = Success(value: R) | Failure(error: E)
}
