/** Optional values and fallible results. */
module Wrappers {

  datatype Option<+T> = None | Some(value: T)

  /** A Go `(value, error)` pair of which only one part is meaningful. */
  datatype Result<+T> = Ok(value: T) | Err
}
