/** Optional values and outcomes shared by the model's modules. */
module Wrappers {

  /** A value that may be absent: JavaScript's `undefined` / `null`. */
  datatype Option<+T> = None | Some(value: T)

  /** An outcome that either carries a value or the message of a thrown `Error`. */
  datatype Result<+T> = Success(value: T) | Failure(message: string)
}
