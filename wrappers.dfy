/** Option, Result and Outcome: absent values and the errors the source throws. */
module Wrappers {

  /** A value that may be absent (`undefined`/`null` in the source). */
  datatype Option<T> = None | Some(value: T)

  /** A value, or the message of the `Error` that was thrown instead. */
  datatype Result<T> = Ok(value: T) | Err(msg: string)

  /** A step that either completed or threw an `Error` with a message. */
  datatype Outcome = Done | Failed(msg: string)
}
