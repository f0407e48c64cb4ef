/** Optional values and failure-carrying results, used for the errors the
    merger raises (KeyError, ValueError, MergerError). */
module Wrappers {

  datatype Option<T> = None | Some(value: T)

  datatype Result<T, E> = Ok(value: T) | Err(error: E)
}
