/** Option, Result and Outcome values, used for the oracle outcomes of the
    foreign calls (receive, parse, decode, status update, schema refresh). */
module Wrappers {

  datatype Option<+T> = None | Some(value: T)

  /** A Go `(value, error)` pair: either a value or a non-nil error. */
  datatype Result<+T, +E> = Success(value: T) | Failure(error: E)

  /** A Go call that returns only an `error`. */
  datatype Outcome<+E> = Pass | Fail(error: E)
}
