/** Option and Result, used for the absent table attribute and for the
    configuration errors the model constructor raises. */
module Wrappers {

  datatype Option<+T> = None | Some(value: T)

  datatype Result<+R, +E> = Success(value: R) | Failure(error: E)
}
