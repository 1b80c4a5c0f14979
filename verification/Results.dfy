/** The two result shapes used throughout: a value that may be missing, and a value or the error that
    took its place. */
module Results {
  datatype Option<+T> = None | Some(value: T)

  datatype Result<+T, +E> = Ok(value: T) | Err(error: E)
}
