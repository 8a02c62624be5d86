/** Optional values and results with an error, as used across the model. */
module Wrappers {

  /** A value that may be absent, such as an optional command-line argument. */
  datatype Option<+T> = None | Some(value: T)

  /** The outcome of a step that can fail before the stream is read. */
  datatype Result<+R, +E> = Success(value: R) | Failure(error: E)
}
