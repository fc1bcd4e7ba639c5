/** Option and Result values used where the source has `undefined`, a thrown
    error or a failed HTTP response. */
module Wrappers {

  datatype Option<+T> = None | Some(value: T)

  datatype Result<+R, +E> = Success(value: R) | Failure(error: E)
}
