/** The two result shapes used throughout the model. */
module Wrappers {

  datatype Option<+T> = None | Some(value: T)

  /** Stands for the source's `Result`: a value, or the error that replaces it. */
  datatype Result<+T, +E> = Ok(value: T) | Err(error: E)
}
