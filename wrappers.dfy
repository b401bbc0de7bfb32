/** Optional values and results with an error, used wherever the source
    returns `undefined`/`null` or throws an `Error` that the caller sees. */
module Wrappers {

  datatype Option<+T> = None | Some(value: T)

  datatype Result<+T, +E> = Success(value: T) | Failure(error: E)
}
