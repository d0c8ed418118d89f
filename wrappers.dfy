/** Optional values and results that stand for Java's null and its exceptions. */
module Wrappers {

  datatype Option<T> = None | Some(value: T)

  /** The outcome of an operation that may throw: the exception's message is the error. */
  datatype Result<T, E> = Success(value: T) | Failure(error: E)
}
