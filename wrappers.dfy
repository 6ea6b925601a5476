/** Optional values and error-carrying results shared by the other modules. */
module Wrappers {

  /** A value that may be absent (`null`/`undefined` in the storefront). */
  datatype Option<+T> = None | Some(value: T)

  /** The outcome of an operation that either yields a value or fails with an error. */
  datatype Result<+R, +E> = Success(value: R) | Failure(error: E)
}
