/** Failure-carrying datatypes shared by every module of the model. */
module Wrappers {

  /** A value that may be absent, like Python's `None`. */
  datatype Option<+T> = None | Some(value: T)

  /** A computation that either produced a value or raised an error. */
  datatype Result<+R, +E> = Ok(value: R) | Err(error: E)
}
