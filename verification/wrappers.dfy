/** Failure-compatible wrappers used throughout the model. */
module Wrappers {

  /** An optional value: Python's `None` or a present value. */
  datatype Option<+T> = None | Some(value: T)

  /** Either a validated value or the error that stopped validation. */
  datatype Result<+T, +E> = Success(value: T) | Failure(error: E)
}
