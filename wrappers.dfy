/** Option and Result, the two failure-carrying datatypes every other module uses. */
module Wrappers {

  /** A value that may be missing (a Go nil pointer or a map miss). */
  datatype Option<+T> = None | Some(value: T)

  /** A value or an error message (a Go `(T, error)` pair). */
  datatype Result<+T, +E> = Ok(value: T) | Err(error: E)
}
