/** Optional values and results with an error, for the source's `None`
    and for the exceptions it raises. */
module Wrappers {

  datatype Option<+T> = None | Some(value: T)

  datatype Result<+T, +E> = Ok(value: T) | Err(error: E)
}
