/** Option and Result, the two failure-carrying types the model uses. */
module Wrappers {

  datatype Option<+T> = None | Some(value: T)

  /** A computation that yields a value or an error, in place of a thrown exception. */
  datatype Result<+R, +E> = Success(value: R) | Failure(error: E)
}
