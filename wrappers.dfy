/** Failure-carrying values used across the model. */
module Wrappers {

  /** A value that may be absent, as JavaScript's `undefined` result of a lookup. */
  datatype Option<T> = None | Some(value: T)

  /** The outcome of an operation that can throw: a value or the thrown error. */
  datatype Result<T, E> = Ok(value: T) | Err(error: E)
}
