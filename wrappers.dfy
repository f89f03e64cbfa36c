/** Failure-compatible wrappers shared by every module: pandas' missing value
    is `None`, a Python exception that ends a script is a `Failure`. */
module Wrappers {

  datatype Option<+T> = None | Some(value: T)

  datatype Result<+R, +E> = Success(value: R) | Failure(error: E)
}
