/** Failure-carrying values shared by every module of the model. */
module Wrappers {

  /** An optional value; the model uses `None` where Python has `None` or NaN. */
  datatype Option<+T> = None | Some(value: T)

  /** The outcome of an operation that raises an exception in the source. */
  datatype Result<+R, +E> = Ok(value: R) | Err(error: E)
}
