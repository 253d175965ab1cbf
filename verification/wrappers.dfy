/** Failure-carrying datatypes used for the thrown errors and optional fields of the model. */
module Wrappers {

  /** An optional value: a JavaScript field that may be `undefined`. */
  datatype Option<+T> = None | Some(value: T)

  /** Either a value or an error: a call that returns or throws. */
  datatype Result<+R, +E> = Ok(value: R) | Err(error: E)
}
