/** Optional values and results with an error, used for the absent fields of a
    submission and for the operations of the server that can fail. */
module Wrappers {

  datatype Option<+T> = None | Some(value: T)

  datatype Result<+T, +E> = Ok(value: T) | Err(error: E)
}
