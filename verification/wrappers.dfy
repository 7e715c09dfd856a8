/** Option and Result types shared by the model. */
module Wrappers {

  /** A value that may be absent (an optional record field, a failed lookup). */
  datatype Option<+T> = None | Some(value: T)

  /** Either a value or a user-facing message explaining why there is none. */
  datatype Result<+T> = Ok(value: T) | Err(message: string)
}
