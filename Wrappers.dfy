/** Optional values and results with an error, as the extractors use them:
    Python's None becomes None, a raised exception becomes Failure. */
module Wrappers {

  datatype Option<+T> = None | Some(value: T)

  datatype Result<+T, +E> = Success(value: T) | Failure(error: E)
}
