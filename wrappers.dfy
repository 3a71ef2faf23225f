/** Option and Result, used for lookups that may miss and for operations that throw. */
module Wrappers {

  datatype Option<+T> = None | Some(value: T)

  /** `Err` carries the message of the JavaScript `Error` that would be thrown. */
  datatype Result<+T> = Ok(value: T) | Err(error: string)
}
