/** Outcome of an operation that either yields a value or fails with a typed error. */
module Wrappers {
  datatype Result<T, E> = Ok(value: T) | Err(error: E)
}
