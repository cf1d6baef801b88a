/** Optional values and results with an error side, used wherever the
    application looks up a row that may be missing or reports an error. */
module Wrappers {

  datatype Option<+T> = None | Some(value: T)

  datatype Result<+R, +E> = Success(value: R) | Failure(error: E)
}
