/** Option and Result values shared by the modules of this model. */
module Wrappers {

  /** A value that may be absent (JavaScript `null`, `undefined` or `NaN`). */
  datatype Option<+T> = None | Some(value: T)

  /** The outcome of an operation that can fail with an error message. */
  datatype Result<+T> = Ok(value: T) | Err(message: string)
}
