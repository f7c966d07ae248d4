/** Failure-compatible result types used throughout the model. */
module Wrappers {

  datatype Option<+T> = None | Some(value: T)

  /** A computation that either produced a value or raised an error. */
  datatype Result<+R, +E> = Success(value: R) | Failure(error: E)

  /** A computation run for its effect: it either completed or raised an error. */
  datatype Outcome<+E> = Pass | Fail(error: E)
}
