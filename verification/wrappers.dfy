/** Optional values and fallible results, shared by every module of the model. */
module Wrappers {

  /** A value that may be absent; in the JavaScript model `None` is `undefined`. */
  datatype Option<+T> = None | Some(value: T)

  /** The outcome of an operation that may fail with an error of type `E`. */
  datatype Result<+T, +E> = Ok(value: T) | Err(error: E)
}
