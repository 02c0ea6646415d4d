/** Failure-carrying return values used where the Go code returns `(value, error)`
    or falls back to a zero value. */
module Wrappers {

  datatype Option<+T> = None | Some(value: T)

  /** Go's `(T, error)` pair: exactly one of a value and an error is meaningful. */
  datatype Result<+T, +E> = Ok(value: T) | Err(error: E)
}
