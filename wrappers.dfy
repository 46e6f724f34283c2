/** Option and Result as Rust has them, plus the outcome of a call that may panic. */
module Wrappers {

  datatype Option<+T> = None | Some(value: T)

  datatype Result<+T, +E> = Ok(value: T) | Err(error: E)

  /** A Rust call either returns (a Result) or panics, which ends the process. */
  datatype Outcome<+T, +E> = Returned(result: Result<T, E>) | Panicked {
    predicate IsOk() { Returned? && result.Ok? }
  }
}
