/** Option and Result, used by the inventory model. */
module Wrappers {

  /** An optional value: Python's `None` or a present value. */
  datatype Option<+T> = None | Some(value: T)

  /** The outcome of an operation that can raise: a value or the raised error. */
  datatype Result<+R, +E> = Success(value: R) | Failure(error: E)
}
