/** Failure-compatible result types shared by every component of the codec. */
module Wrappers {

  /** A value that may be absent: Python's `Optional[...]`, or a missing dictionary key. */
  datatype Option<+T> = None | Some(value: T)

  /** The value of a computation that may raise instead of returning. */
  datatype Result<+T, +E> = Success(value: T) | Failure(error: E)

  /** The outcome of a check that either passes or raises with an error. */
  datatype Outcome<+E> = Pass | Fail(error: E)
}
