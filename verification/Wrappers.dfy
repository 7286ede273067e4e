/** Failure-carrying datatypes shared by the export model. */
module Wrappers {

  /** A value that may be absent: Python's `None` versus a present object. */
  datatype Option<+T> = None | Some(value: T)

  /** The outcome of a step that can raise: a value, or the error that aborts the run. */
  datatype Result<+R, +E> = Success(value: R) | Failure(error: E)
}
