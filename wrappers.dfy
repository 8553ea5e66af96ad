/** Option and Result, as used by every schema in this model. */
module Wrappers {

  /** A value that may be absent: an optional field of a normalised record. */
  datatype Option<+T> = None | Some(value: T)

  /** The outcome of a validation: the normalised value, or what went wrong. */
  datatype Result<+R, +E> = Success(value: R) | Failure(error: E)
}
