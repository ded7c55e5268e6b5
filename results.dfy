/** Optional values and error returns, standing in for Go's `(value, error)` pairs. */
module Results {

  datatype Option<+T> = None | Some(value: T)

  /** A Go `(T, error)` return: `Err` carries the error's message. */
  datatype Result<+T> = Ok(value: T) | Err(msg: string)
}
