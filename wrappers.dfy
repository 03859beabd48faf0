/** Optional values and results with an error, as returned by the Go
    functions that answer `(value, error)` or may hand back `nil`. */
module Wrappers {

  datatype Option<+T> = None | Some(value: T)

  datatype Result<+T, +E> = Ok(value: T) | Err(error: E)
  {
    predicate IsFailure() { Err? }
  }
}
