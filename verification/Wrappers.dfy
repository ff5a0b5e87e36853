/** Optional values and results with an error, used for Python's `None`
    and for the exceptions that the modelled operations raise. */
module Wrappers {

  datatype Option<+T> = None | Some(value: T)

  datatype Result<+T, +E> = Success(value: T) | Failure(error: E)
}
