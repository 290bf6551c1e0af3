/** Failure-compatible wrappers used throughout the model. */
module Wrappers {

  /** A value that may be absent: a failed regex search, an unreadable file. */
  datatype Option<+T> = None | Some(value: T)

  /** The result of an operation that can raise: `Err` carries the exception's message. */
  datatype Result<+T> = Ok(value: T) | Err(msg: string)
}
