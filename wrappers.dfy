/** Small failure-carrying datatypes shared by the whole model. */
module Wrappers {

  /** A value that may be absent (`undefined`, `null`, `None` in the source). */
  datatype Option<+T> = None | Some(value: T)

  /** A value, or the message of the error thrown instead. */
  datatype Result<+T> = Ok(value: T) | Err(message: string)

  /** The settled state of an asynchronous operation that resolves with no value
      or rejects with an `Error` carrying a user-facing message. */
  datatype Outcome = Done | Thrown(message: string)
}
