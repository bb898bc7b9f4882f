/** Optional values (TypeScript's `T | undefined`) and outcomes that either
    carry a value or the message of a thrown `Error`. */
module Wrappers {

  datatype Option<+T> = None | Some(value: T)

  datatype Result<+T, +E> = Ok(value: T) | Err(error: E)
}
