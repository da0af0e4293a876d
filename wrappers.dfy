/** Option and Result, the shapes in which the model returns "maybe absent" values and
    "value or raised exception" outcomes. */
module Wrappers {

  datatype Option<+T> = None | Some(value: T)

  datatype Result<+R, +E> = Success(value: R) | Failure(error: E)
}
