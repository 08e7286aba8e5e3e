/** Option and Result, shared by the model: the Python code signals absence
    with None and failure with a raised exception. */
module Wrappers {

  datatype Option<+T> = None | Some(value: T)

  /** The outcome of an operation that may raise: a value, or the error raised. */
  datatype Result<+R, +E> = Success(value: R) | Failure(error: E)
}
