/** Failure-carrying datatypes shared by the whole model. */
module Wrappers {

  /** A value that may be absent: JavaScript's `undefined`/`null`, or a missing field. */
  datatype Option<+T> = None | Some(value: T)

  /** The outcome of a check that either produces a value or names what failed. */
  datatype Result<+T, +E> = Ok(value: T) | Err(error: E)
}
