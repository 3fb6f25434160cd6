/** Optional values and failures, standing for JavaScript's `null` and thrown errors. */
module Wrappers {

  /** A value that may be absent (`null` or `undefined` in the source). */
  datatype Option<+T> = None | Some(value: T)

  /** The outcome of an operation that may throw: its value, or the thrown error's message. */
  datatype Result<+T> = Ok(value: T) | Err(message: string)
}
