/** Option and Result, the two failure-carrying shapes the model returns. */
module Wrappers {

  /** A value that may be absent; PHP's `null` in the places the driver reads one. */
  datatype Option<+T> = None | Some(value: T)

  /** The outcome of a driver operation: a value, or the exception it throws. */
  datatype Result<+T, +E> = Ok(value: T) | Err(error: E)
}
