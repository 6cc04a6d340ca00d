/** Failure-carrying result types shared by the callback wrapper and the manager. */
module Wrappers {

  /** A value that may be absent; Python's `None` default for an optional argument. */
  datatype Option<+T> = None | Some(value: T)

  /** Either a value or the exception that an operation raised instead. */
  datatype Result<+R, +E> = Ok(value: R) | Err(error: E)

  /** An operation that returns nothing, or the exception it raised. */
  datatype Outcome<+E> = Pass | Fail(error: E)
}
