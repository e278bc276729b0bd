/** Explicit success and failure values, in place of Python's exceptions. */
module Results {

  /** A value that may be missing (a dictionary lookup that finds no key). */
  datatype Option<+T> = None | Some(value: T)

  /** A check that either passes or fails with an error. */
  datatype Outcome<+E> = Pass | Fail(error: E)

  /** A computation that either yields a value or fails with an error. */
  datatype Result<+T, +E> = Ok(value: T) | Err(error: E)
}
