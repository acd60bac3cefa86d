/** Optional values and results with an error, used throughout the storage model. */
module Wrappers {

  /** A value that may be absent: Python's `None` or a SQL NULL. */
  datatype Option<+T> = None | Some(value: T)

  /** The outcome of an operation that may raise. */
  datatype Result<+T, +E> = Ok(value: T) | Err(error: E)
}
