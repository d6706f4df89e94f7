/** Failure-compatible result types shared by every module of the model. */
module Wrappers {

  /** A value that may be absent: a missing row, an omitted request-body field. */
  datatype Option<+T> = None | Some(value: T)

  /** The outcome of an operation that produces a value or fails with a typed error. */
  datatype Result<+T, +E> = Success(value: T) | Failure(error: E)

  /** The outcome of an operation that produces nothing but may fail. */
  datatype Outcome<+E> = Pass | Fail(error: E)
}
