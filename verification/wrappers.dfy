/** Option and Result values, used for JavaScript's `undefined`/`null` and for
    the error paths (thrown errors, rejected requests) of the modelled code. */
module Wrappers {

  datatype Option<+T> = None | Some(value: T)

  datatype Result<+R, +E> = Success(value: R) | Failure(error: E)
}
