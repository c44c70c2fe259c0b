/** Optional values and results, for the source's nullable fields and for
    the exceptions it raises on malformed lines. */
module Wrappers {

  datatype Option<+T> = None | Some(value: T)

  datatype Result<+T, +E> = Ok(value: T) | Err(error: E)
}
