/** Failure-carrying result types used across the model. */
module Wrappers {

  /** A value that may be absent; `None` is what a failed decode returns. */
  datatype Option<+T> = None | Some(value: T)

  /** Rust's `Result<R, E>`. */
  datatype Result<+R, +E> = Ok(value: R) | Err(error: E)
}
