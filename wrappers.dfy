/** Option and Result, for JavaScript's `null`/`undefined` and for error responses. */
module Wrappers {

  datatype Option<T> = None | Some(value: T)

  datatype Result<T, E> = Success(value: T) | Failure(error: E)
}
