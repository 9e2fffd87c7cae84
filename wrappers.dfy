/** Optional values and results with an error, as used across the model. */
module Wrappers {

  /** A value that may be absent: JavaScript's `undefined` / `null`. */
  datatype Option<+T> = None | Some(value: T)

  /** The outcome of an operation that can fail with an error `E`. */
  datatype Result<+T, +E> = Ok(value: T) | Err(error: E)
}
