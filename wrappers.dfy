/** Optional values and error results, standing in for Ruby's nil and raised exceptions. */
module Wrappers {

  /** A value that may be absent (Ruby nil). */
  datatype Option<+T> = None | Some(value: T)

  /** The outcome of a step that may raise. */
  datatype Result<+T, +E> = Ok(value: T) | Err(error: E)
}
