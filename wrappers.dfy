/** Option and Result, the failure-carrying datatypes the rest of the model uses. */
module Wrappers {

  /** An optional argument or value: `None` where the source passes or returns `None`. */
  datatype Option<+T> = None | Some(value: T)

  /** The outcome of an operation that can raise: `Failure` carries the error. */
  datatype Result<+R, +E> = Success(value: R) | Failure(error: E)
}
