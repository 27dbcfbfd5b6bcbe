/** Failure-compatible result types used for the source's thrown errors and optional values. */
module Wrappers {

  /** A value that may be absent (the source's `undefined`). */
  datatype Option<+T> = None | Some(value: T)

  /** The outcome of an operation that either yields a value or throws an error. */
  datatype Result<+T, +E> = Ok(value: T) | Err(error: E)

  /** The outcome of an operation that yields nothing but may throw an error. */
  datatype Outcome<+E> = Pass | Fail(error: E)
}
