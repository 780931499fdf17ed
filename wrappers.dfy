/** Optional values and results with an error, used for Python's `None` and
    for the inputs on which the program raises an exception. */
module Wrappers {

  datatype Option<+T> = None | Some(value: T)

  datatype Result<+T, +E> = Success(value: T) | Failure(error: E)
}
