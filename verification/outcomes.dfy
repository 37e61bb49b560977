/** Failure-carrying wrappers shared by every stage of the pipeline. */
module Outcomes {

  /** A value that may be absent: Go's `nil` error, a JSON decode that failed. */
  datatype Option<+T> = None | Some(value: T)

  /** The value-or-error pair a Go function returns as `(T, error)`. */
  datatype Result<+T, +E> = Ok(value: T) | Err(error: E)
}
