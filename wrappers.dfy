/** Option and Result, the two failure-carrying shapes the model needs. */
module Wrappers {

  datatype Option<+T> = None | Some(value: T)

  /** Success or a failure value, as functions returning (value, error) pairs in the source use. */
  datatype Result<+T, +E> = Success(value: T) | Failure(error: E)
}
