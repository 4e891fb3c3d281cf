/** Optional values and results with an error, used for lookups that can miss
    and for renders that would throw in the browser. */
module Wrappers {
  datatype Option<+T> = None | Some(value: T)

  datatype Result<+T, +E> = Ok(value: T) | Err(error: E)
}
