/** Option and Result values used where the Go code returns `(value, ok)` or `(value, err)`. */
module Wrappers {

  datatype Option<+T> = None | Some(value: T)

  datatype Result<+R, +E> = Success(value: R) | Failure(error: E)
}
