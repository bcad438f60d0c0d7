/** Option and Result, the failure-carrying values used throughout the model. */
module Wrappers {

  datatype Option<+T> = None | Some(value: T)

  /** A JavaScript call either returns a value or throws; `Failure` is the throw. */
  datatype Result<+R, +E> = Success(value: R) | Failure(error: E)
}
