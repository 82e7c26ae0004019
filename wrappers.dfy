/** Option and Result values used for the error paths of the services. */
module Wrappers {

  datatype Option<+T> = None | Some(value: T)

  /** An operation that either yields a value or fails with the message of the
      error the service would throw. */
  datatype Result<+R, +E> = Success(value: R) | Failure(error: E)
}
