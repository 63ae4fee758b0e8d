/** Option and Result, the two failure-carrying shapes used throughout the model. */
module Wrappers {

  /** A value that may be absent: Python's `None` or a missing dictionary key. */
  datatype Option<+T> = None | Some(value: T)

  /** A success value, or the error the source raises instead of returning. */
  datatype Result<+R, +E> = Success(value: R) | Failure(error: E)
}
