/** The outcome of an operation that may fail. */
module Wrappers {

  datatype Result<T, E> = Success(value: T) | Failure(error: E)
}
