/** Option and Result: a missing value, and a computation that may throw. */
module Wrappers {

  datatype Option<+T> = None | Some(value: T)

  /** `Err` stands for a JavaScript exception; `message` is the error's text. */
  datatype Result<+T> = Ok(value: T) | Err(message: string)
}
