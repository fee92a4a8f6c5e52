/** The optional values and error returns shared by all modules. */
module Wrappers {

  /** A value the source may leave out (a nil pointer, a missing JSON key, an absent row). */
  datatype Option<+T> = None | Some(value: T)

  /** The source's `(value, error)` returns. */
  datatype Result<+T, +E> = Ok(value: T) | Err(error: E)
}
