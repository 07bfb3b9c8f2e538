/** Explicit outcomes for calls that the scripts make to external services:
    an exception raised by the service becomes `Err`, a missing value `None`. */
module Outcome {

  datatype Option<+T> = None | Some(value: T)

  /** The answer of an external call: a value, or the text of the exception it raised. */
  datatype Result<+T> = Ok(value: T) | Err(error: string)
}
