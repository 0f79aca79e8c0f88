/** Optional values and tagged outcomes, used wherever the Python code returns
    None, omits a dictionary key, or raises. */
module Wrappers {

  datatype Option<T> = None | Some(value: T)

  datatype Result<T, E> = Success(value: T) | Failure(error: E)
}
