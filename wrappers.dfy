/** Failure-carrying values: Go's `(T, error)` pairs and nil pointers. */
module Wrappers {

  /** A value that may be absent: a nil pointer or a nil slice in the source. */
  datatype Option<+T> = None | Some(value: T)

  /** A value or the error that replaced it. */
  datatype Result<+T, +E> = Ok(value: T) | Err(error: E)
}
