/** Optional values and results with an error, shared by the modules of this model. */
module Wrappers {

  /** A value that may be absent: Java's `Optional`, a JSON field that may be missing. */
  datatype Option<T> = None | Some(value: T)

  /** The outcome of an operation that either yields a value or fails with an error. */
  datatype Result<T, E> = Success(value: T) | Failure(error: E)
}
