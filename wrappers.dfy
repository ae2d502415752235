/** Optional values and success/failure results, used for the source's
    `undefined` fields and for the errors its async functions throw. */
module Wrappers {

  datatype Option<+T> = None | Some(value: T)

  datatype Result<+R, +E> = Ok(value: R) | Err(error: E)
}
