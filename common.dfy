/** Small value wrappers shared by every module of the model. */
module Common {

  /** An optional value: JavaScript's `T | undefined`. */
  datatype Option<+T> = None | Some(value: T)

  /** A computation that either produces a value or throws an error with a message. */
  datatype Result<+T, +E> = Ok(value: T) | Err(error: E)
}
