/** The optional-value and success-or-error datatypes used throughout the model. */
module Wrappers {

  /** A value that may be missing: a file read or a directory listing that failed. */
  datatype Option<T> = None | Some(value: T)

  /** The outcome of a step that either produces a value or stops the run with an error. */
  datatype Result<T, E> = Ok(value: T) | Err(error: E)
}
