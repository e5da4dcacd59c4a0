/** Optional values and handler results, shared by the rest of the model. */
module Wrappers {

  /** An optional value: the environment lookup that may find nothing. */
  datatype Option<+T> = None | Some(value: T)

  /** The outcome of a request handler: a value, or the error it raised. */
  datatype Result<+R, +E> = Success(value: R) | Failure(error: E)
}
