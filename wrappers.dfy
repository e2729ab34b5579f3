/** Option and Result, the two shapes every Go `(value, error)` pair is read into. */
module Wrappers {

  datatype Option<+T> = None | Some(value: T)

  datatype Result<+T, +E> = Ok(value: T) | Err(error: E)
}
