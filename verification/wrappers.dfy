/** Failure-carrying datatypes shared by the backend and the client models. */
module Wrappers {

  /** A value that may be absent: Python's `None`, JavaScript's `null`/`undefined`. */
  datatype Option<+T> = None | Some(value: T)

  /** The outcome of a call that either returns a value or raises an error. */
  datatype Result<+T, +E> = Ok(value: T) | Err(error: E)
}
