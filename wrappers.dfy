/** Optional values and outcomes that may fail with a message. */
module Wrappers {

  /** A value that may be absent (JavaScript `null` / `undefined`). */
  datatype Option<+T> = None | Some(value: T)

  /** The outcome of an operation that may throw an `Error` carrying a message. */
  datatype Result<+T> = Ok(value: T) | Err(message: string)
}
