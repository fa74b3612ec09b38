/** Failure-carrying values standing in for Ruby's raised exceptions and failed futures. */
module Wrappers {

  datatype Option<+T> = None | Some(value: T)

  /** A value or the error that the source raises instead of returning it. */
  datatype Result<+T, +E> = Ok(value: T) | Err(error: E)

  /** An operation run for its effect: it either completes or raises `error`. */
  datatype Outcome<+E> = Pass | Fail(error: E)
}
