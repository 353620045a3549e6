/** Optional values and results with an error, shared by every module. */
module Wrappers {
  /** `undefined` / `null` versus a present value. */
  datatype Option<T> = None | Some(value: T)

  /** A value, or the error the source would throw. */
  datatype Result<T, E> = Ok(value: T) | Err(error: E)
}
