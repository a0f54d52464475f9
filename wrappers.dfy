/** Failure-carrying values shared by every module of the model. */
module Wrappers {

  /** Rust's `Option<T>`. */
  datatype Option<+T> = None | Some(value: T) {
    function GetOr(default: T): T {
      match this
      case Some(v) => v
      case None => default
    }
  }

  /** Rust's `Result<T, E>`. */
  datatype Result<+T, +E> = Success(value: T) | Failure(error: E)

  /**
   * How a fallible set-up step of the sink ends: with a value, with the
   * `Err(String)` the source returns, or with a panic (`unwrap`/`expect`).
   */
  datatype Outcome<+T, +E> = Built(value: T) | Failed(error: E) | Panicked(reason: E)
}
