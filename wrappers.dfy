/** Option and Result values used across the model. */
module Wrappers {

  /** A value that may be absent: pandas' NaN in a numeric column. */
  datatype Option<+T> = None | Some(value: T)

  /** The outcome of an operation that can raise. */
  datatype Result<+T, +E> = Success(value: T) | Failure(error: E)
}
