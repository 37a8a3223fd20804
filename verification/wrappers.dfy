/** Optional values and success/failure results used throughout the model. */
module Wrappers {

  /** A value that may be absent; `None` plays the part of Go's `nil`. */
  datatype Option<+T> = None | Some(value: T)

  /** Either a value or an error, for operations that return one or the other. */
  datatype Result<+T, +E> = Success(value: T) | Failure(error: E)
}
