/** Failure-carrying results: the model's stand-in for JavaScript exceptions. */
module Wrappers {

  /** A computation that either produced a value or threw an Error with a message. */
  datatype Result<+T> = Ok(value: T) | Err(error: string)

  datatype Option<+T> = None | Some(value: T)
}
