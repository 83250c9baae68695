/** Option and Result datatypes used across the model. */
module Wrappers {

  /** A value that may be absent: the outcome of decoding one line. */
  datatype Option<+T> = None | Some(value: T)

  /** A success value or an error value: Go's `(*string, error)` pair. */
  datatype Result<+T, +E> = Ok(value: T) | Err(error: E)
}
