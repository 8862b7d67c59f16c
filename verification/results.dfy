/** Outcome types shared by the whole model. */
module Results {

  /** A value that may be absent (a library call that raised ValueError gives None). */
  datatype Option<+T> = None | Some(value: T)

  /** The outcome of an operation that either returns a value or raises an error. */
  datatype Result<+T, +E> = Ok(value: T) | Err(error: E)
}
