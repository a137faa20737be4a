/** Option and Result values shared by the client and the server model. */
module Wrappers {

  /** A value that may be absent: a JavaScript `null`/`undefined` or a Java `null`. */
  datatype Option<+T> = None | Some(value: T)

  /** The value of a computation that either returns or throws. */
  datatype Result<+R, +E> = Success(value: R) | Failure(error: E)
}
