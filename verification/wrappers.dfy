/** The optional value and the setter outcome shared by the request model. */
module Wrappers {

  /** A JavaScript value that may be `undefined`. */
  datatype Option<+T> = None | Some(value: T)

  /** The outcome of a validating setter: the new state, or the error it throws. */
  datatype Result<+R, +E> = Success(value: R) | Failure(error: E)
}
