/** Types shared by the other modules. */
module Common {
  datatype Option<+T> = None | Some(value: T)

  /** A computation that yields a value or ends in an exception. */
  datatype Result<+T, +E> = Ok(value: T) | Err(error: E)
}
