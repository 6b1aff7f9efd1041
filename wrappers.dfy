/** Optional values and success-or-error results, used wherever the source
    answers "not found" or rejects a request instead of returning a value. */
module Wrappers {

  datatype Option<+T> = None | Some(value: T)

  datatype Result<+R, +E> = Success(value: R) | Failure(error: E)
}
