/** Option and Result, the failure-carrying datatypes used across the model. */
module Wrappers {

  /** A value that may be absent: `undefined`, or a missing key in JavaScript. */
  datatype Option<+T> = None | Some(value: T)

  /** The outcome of a call that either returns a value or throws an error. */
  datatype Result<+T, +E> = Ok(value: T) | Err(error: E)
}
