/** Optional values and results that carry an error, shared by every component. */
module Wrappers {

  datatype Option<+T> = None | Some(value: T)

  /** `Err` stands for an exception the program raises. */
  datatype Result<+T, +E> = Ok(value: T) | Err(error: E)
}
