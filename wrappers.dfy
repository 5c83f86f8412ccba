/** Option, results, escaping exceptions and validation outcomes, used across the model. */
module Wrappers {

  datatype Option<+T> = None | Some(value: T)

  /** A value or the kind of error that prevented it. */
  datatype Result<+T, +E> = Ok(value: T) | Err(error: E)

  /** A call that either returns or lets an exception escape to the caller. */
  datatype Raising<+T> = Returned(value: T) | Raised(exception: string)

  /** The result of a validator: the cleaned value, or the message it raises. */
  datatype Cleaned<+T> = Valid(value: T) | Invalid(message: string)
}
