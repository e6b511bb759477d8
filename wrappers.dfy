/** Failure-carrying return values, used where the Ruby code returns nil or raises. */
module Wrappers {
  datatype Option<+T> = None | Some(value: T)

  /** `Err` carries the message of the exception the Ruby code would raise. */
  datatype Result<+T> = Ok(value: T) | Err(error: string)
}
