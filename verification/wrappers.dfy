/** Option and Result, the failure-carrying values used across the model. */
module Wrappers {

  /** A value that may be absent: `None` stands for Python's `None` and for
      pandas' NaN. */
  datatype Option<+T> = None | Some(value: T)

  /** The outcome of a check that either returns a cleaned value or raises. */
  datatype Result<+T, +E> = Success(value: T) | Failure(error: E)
}
