/** Failure-carrying result types shared by every module of the model. */
module Wrappers {

  datatype Option<+T> = None | Some(value: T)

  /** The outcome of an operation that may raise: the value, or the error it raises. */
  datatype Result<+T, +E> = Success(value: T) | Failure(error: E)
}
