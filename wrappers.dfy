/** Option and result types shared by the other modules. */
module Wrappers {

  /** A value that may be absent (Go's "nil or a value"). */
  datatype Option<+T> = None | Some(value: T)

  /** Either a value or the error that prevented it (Go's `(*T, error)` pair). */
  datatype Result<+R, +E> = Success(value: R) | Failure(error: E)
}
