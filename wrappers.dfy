/** Option and Result, used for values the source leaves `undefined` and for
    calls into the remote store that either succeed or throw. */
module Wrappers {

  datatype Option<+T> = None | Some(value: T)

  datatype Result<+R, +E> = Success(value: R) | Failure(error: E)
}
