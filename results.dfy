/** Option and Result wrappers for the error returns of the Go code. */
module Results {

  datatype Option<T> = None | Some(value: T)

  /** A Go `(value, error)` pair: exactly one of the two is meaningful. */
  datatype Result<T, E> = Ok(value: T) | Err(error: E)
}
