/** Option and Result values used across the model. A thrown JavaScript
    `Error` is modelled as `Err(message)` carrying the exact message text. */
module Wrappers {

  datatype Option<+T> = None | Some(value: T)

  datatype Result<+T> = Ok(value: T) | Err(message: string)
}
