/** Optional values and results with an error message, shared by the other modules. */
module Wrappers {

  /** A value that may be absent (`null` / `undefined` in the original). */
  datatype Option<+T> = None | Some(value: T)

  /** The outcome of an operation that may throw an error with a message. */
  datatype Result<+T> = Ok(value: T) | Err(message: string)
}
