/** Optional values and results with an error, used for the operations that may raise. */
module Options {

  /** A value that may be missing (Python's None). */
  datatype Option<+T> = None | Some(value: T)

  /** Either a value or the error an operation raised. */
  datatype Result<+T, +E> = Ok(value: T) | Err(error: E)
}
