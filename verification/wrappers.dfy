/** Failure-carrying wrappers shared by the rest of the model. */
module Wrappers {

  /** A value that may be absent: a JavaScript `undefined`, `null` or array hole. */
  datatype Option<+T> = None | Some(value: T)

  /** The outcome of a request handler: the new state, or the reason nothing was written. */
  datatype Result<+T, +E> = Success(value: T) | Failure(error: E)
}
