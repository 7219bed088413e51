/** Optional values and error returns, standing for Go's `(value, error)` pairs. */
module Results {

  datatype Option<T> = None | Some(value: T)

  /** `Err` carries the text of the Go error value. */
  datatype Result<T> = Ok(value: T) | Err(msg: string)

  /** A Go `error` on its own: `Done` is `nil`. */
  datatype Status = Done | Fail(err: string)
}
