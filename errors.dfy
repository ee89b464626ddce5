/** Outcomes shared by the model: a value, or the exception the operation raises. */
module Errors {

  /** The two exception kinds the status capability raises. */
  datatype ErrorKind = TypeError | ValueError

  /** A value, or an error. */
  datatype Result<+T, +E> = Ok(value: T) | Err(error: E)

  /** Success without a value, or an error (an assignment that may raise). */
  datatype Outcome<+E> = Pass | Fail(error: E)

  datatype Option<+T> = None | Some(value: T)
}
