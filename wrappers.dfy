/** Failure-carrying results shared by every module of the model. */
module Wrappers {

  /** A value that may be absent. */
  datatype Option<+T> = None | Some(value: T)

  /** A success value or an error value. */
  datatype Result<+R, +E> = Ok(value: R) | Err(error: E)
}
