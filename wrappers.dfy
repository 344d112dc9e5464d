/** Optional values and fallible results, the shapes the source's `Option` and `Result` take. */
module Wrappers {

  /** A value that may be absent (a protobuf field with explicit presence, an optional argument). */
  datatype Option<+T> = None | Some(value: T)

  /** The outcome of an operation that either produces a value or fails with an error. */
  datatype Result<+T, +E> = Ok(value: T) | Err(error: E)
}
