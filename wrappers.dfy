/** Optional values and results with an error, as used throughout the model. */
module Wrappers {

  /** A value that may be absent: Python's `None` versus a present value. */
  datatype Option<+T> = None | Some(value: T)

  /** The outcome of an operation that can fail with an error `E`. */
  datatype Result<+T, +E> = Ok(value: T) | Err(error: E)
}
