/** Failure-compatible result types shared by the battleground manager model. */
module Wrappers {

  /** A value that may be absent: the model's stand-in for a nullable pointer. */
  datatype Option<+T> = None | Some(value: T)

  /** Either a value or the reason why none could be produced. */
  datatype Result<+T, +E> = Success(value: T) | Failure(error: E)
}
