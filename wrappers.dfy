/** Option and Result values, standing for Python's None and for raised exceptions. */
module Wrappers {

  /** A value that may be absent (Python's None). */
  datatype Option<+T> = None | Some(value: T)

  /** Either a value or the error the source would raise or report instead. */
  datatype Result<+T, +E> = Ok(value: T) | Err(error: E)
}
