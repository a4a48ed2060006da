/** Failure-carrying datatypes shared by the model. */
module Wrappers {

  /** A value that may be absent, as an unset environment variable is. */
  datatype Option<+T> = None | Some(value: T)

  /** The outcome of an operation that returns a value or throws. */
  datatype Result<+T, +E> = Ok(value: T) | Err(error: E)

  /** A value thrown by JavaScript code: an `Error` object with a message, or
      anything else (`error instanceof Error` is false). */
  datatype Thrown = Error(message: string) | NonError
}
