/** Option and Result, the two wrappers the model needs. */
module Wrappers {
  /** A value that may be absent: C#'s `null` for a reference or a nullable value type. */
  datatype Option<T> = None | Some(value: T)

  /** The outcome of an operation that can fail with an error of type E. */
  datatype Result<T, E> = Success(value: T) | Failure(error: E)
}
