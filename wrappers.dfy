/** Return types standing in for Rust's `Result` and `Option`, and for a check that passes or fails. */
module Wrappers {

  datatype Option<+T> = None | Some(value: T)

  datatype Result<+T, +E> = Ok(value: T) | Err(error: E)

  /** A result that carries no success value, like Rust's `Result<(), E>`. */
  datatype Outcome<+E> = Pass | Fail(error: E)
}
