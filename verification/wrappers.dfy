/** Failure-carrying datatypes shared by the overlay service and the addon handlers. */
module Wrappers {

  /** A value that may be missing: a JavaScript `null` result of a whole step. */
  datatype Option<+T> = None | Some(value: T)

  /** The outcome of an awaited call that may throw: the value, or the thrown error's message. */
  datatype Result<+T> = Ok(value: T) | Err(message: string)
}
