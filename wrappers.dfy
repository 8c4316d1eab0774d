/** Optional values and error results shared by every module. */
module Wrappers {
  datatype Option<T> = None | Some(value: T)

  /** The outcome of an operation that the source may abort by throwing. */
  datatype Result<T> = Ok(value: T) | Err(msg: string)
}
