/** Option and Result values, used for the optional fields of a transaction
    and for the fallible operations of the signing middleware. */
module Wrappers {

  datatype Option<+T> = None | Some(value: T)

  datatype Result<+R, +E> = Success(value: R) | Failure(error: E)
}
