/** Failure-carrying values shared by every handler of the model. */
module Wrappers {

  /** A value that may be absent: a Go nil pointer or a missing map entry. */
  datatype Option<+T> = None | Some(value: T)

  /** The outcome of an operation that either returns a value or fails. */
  datatype Result<+T, +E> = Ok(value: T) | Err(error: E)
}
