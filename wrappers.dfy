/** Option and Result: Go's nil-able pointers and (value, error) pairs. */
module Wrappers {

  /** A Go pointer field that may be nil. */
  datatype Option<+T> = None | Some(value: T)

  /** A Go `(value, error)` return: exactly one of the two is meaningful. */
  datatype Result<+T, +E> = Ok(value: T) | Err(error: E)
}
