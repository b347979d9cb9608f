/** Failure-carrying wrappers shared by every module of the model. */
module Outcomes {

  /** A value that may be absent: JavaScript's `undefined` where the source reads a missing slot. */
  datatype Option<+T> = None | Some(value: T)

  /** The outcome of an operation that either returns or throws (or rejects its promise). */
  datatype Result<+T, +E> = Ok(value: T) | Err(error: E)
}
