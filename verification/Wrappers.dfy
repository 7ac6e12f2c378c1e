/** Optional values (a nil-able Go pointer) and fallible results (a Go value/error pair). */
module Wrappers {

  datatype Option<+T> = None | Some(value: T)

  datatype Result<+T, +E> = Ok(value: T) | Err(error: E)
}
