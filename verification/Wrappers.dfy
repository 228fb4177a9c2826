/** Option and Result, the wrappers used throughout the model. */
module Wrappers {

  /** A Go pointer or an optional value: `None` stands for nil. */
  datatype Option<+T> = None | Some(value: T)

  /** A Go `(value, error)` pair: exactly one of the two is meaningful. */
  datatype Result<+R, +E> = Success(value: R) | Failure(error: E)
}
