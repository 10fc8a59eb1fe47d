/** Stock Option and Result datatypes used throughout the model. */
module Wrappers {

  datatype Option<+T> = None | Some(value: T)

  /** Either a value or the error a request handler answers with. */
  datatype Result<+R, +E> = Success(value: R) | Failure(error: E)
}
