/** Optional values and results carrying an error, standing for Go's `(value, ok)` and `(value, error)` pairs. */
module Outcomes {
  datatype Option<+T> = None | Some(value: T)

  datatype Result<+T, +E> = Ok(value: T) | Err(error: E)
}
