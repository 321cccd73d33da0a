/** Option and Result, the failure-carrying values used throughout the model.
    A Ruby exception raised by the source becomes `Failure(message)`. */
module Wrappers {

  datatype Option<+T> = None | Some(value: T)

  datatype Result<+T, +E> = Success(value: T) | Failure(error: E)

  /** Pass/Fail without a value: a check that either holds or raises. */
  datatype Outcome<+E> = Pass | Fail(error: E)
}
