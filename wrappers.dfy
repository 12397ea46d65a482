/** Option and Result, for the `undefined` slots and the thrown errors of the generator. */
module Wrappers {

  /** A value that may be absent, as JavaScript's `undefined`. */
  datatype Option<+T> = None | Some(value: T)

  /** The outcome of a step that can throw. */
  datatype Result<+T, +E> = Success(value: T) | Failure(error: E)
}
