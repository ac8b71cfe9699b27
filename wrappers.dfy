/** Failure-carrying return values shared by every module of the model. */
module Wrappers {

  /** A value that may be absent: JavaScript's `undefined`, a missing key or a falsy option. */
  datatype Option<+T> = None | Some(value: T)

  /** The outcome of an operation that either returns or throws; `Err` carries the thrown message. */
  datatype Result<+T, +E> = Ok(value: T) | Err(error: E)
}
