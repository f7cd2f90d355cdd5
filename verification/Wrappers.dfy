/** Failure-compatible datatypes shared by the models. */
module Wrappers {

  datatype Option<+T> = None | Some(value: T)

  function OrZero(x: Option<real>): real {
    if x.Some? then x.value else 0.0
  }

  datatype Result<+T, +E> = Success(value: T) | Failure(error: E)
}
