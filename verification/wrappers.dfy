/** Optional values and error-carrying results, used where the Go code returns
    a value together with an `error` or a pointer that may be nil. */
module Wrappers {

  datatype Option<+T> = None | Some(value: T)

  datatype Result<+T, +E> = Ok(value: T) | Err(error: E)
}
