/** Optional values and results with an error, shared by every module of the model. */
module Wrappers {

  /** A value that may be absent (`undefined` on the TypeScript side). */
  datatype Option<+T> = None | Some(value: T)

  /** The outcome of an operation that may throw: a value, or the thrown message. */
  datatype Result<+T, +E> = Ok(value: T) | Err(error: E)
}
