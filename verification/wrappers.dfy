/** Optional values and results with an error, used for the source's
    `undefined`, falsy and thrown-error paths. */
module Wrappers {

  datatype Option<+T> = None | Some(value: T)

  datatype Result<+T, +E> = Ok(value: T) | Err(error: E)
}
