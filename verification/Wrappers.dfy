/** Result types shared by every module of the model. */
module Wrappers {

  /** A value that may be absent: a nil pointer, a NULL column, a missing map entry. */
  datatype Option<+T> = None | Some(value: T)

  /** The (value, error) pair of a call: exactly one of the two is meaningful. */
  datatype Result<+T, +E> = Success(value: T) | Failure(error: E)
}
