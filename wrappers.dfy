/** Go's "value or nil" and "(value, error)" return conventions. */
module Wrappers {

  /** A value that may be absent: a nil error, a nil pointer. */
  datatype Option<+T> = None | Some(value: T)

  /** The pair `(value, err)` a Go function returns, where exactly one side is meaningful. */
  datatype Result<+T, +E> = Success(value: T) | Failure(error: E)
}
