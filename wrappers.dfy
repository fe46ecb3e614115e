/** Option and Result: the values a Python function returns when it may return
    `None`, or `False` instead of a value. */
module Wrappers {

  datatype Option<+T> = None | Some(value: T)

  datatype Result<+R, +E> = Success(value: R) | Failure(error: E)
}
