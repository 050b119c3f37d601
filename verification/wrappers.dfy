/** Failure-carrying values used in place of Python's exceptions. */
module Wrappers {

  /** A value that may be absent. */
  datatype Option<+T> = None | Some(value: T)

  /** A value, or the error that stopped its computation. */
  datatype Result<+T, +E> = Ok(value: T) | Err(error: E)

  /** A check that passes, or fails with a reason. */
  datatype Outcome<+E> = Pass | Fail(error: E)
}
