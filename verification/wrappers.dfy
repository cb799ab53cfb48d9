/** Optional values and results carrying an error, used wherever the Python
    editor answers `None` or raises an exception. */
module Wrappers {

  /** `None` where Python returns `None`; `Some(v)` otherwise. */
  datatype Option<+T> = None | Some(value: T)

  /** `Err(e)` where Python raises; `Ok(v)` where it returns `v`. */
  datatype Result<+T, +E> = Ok(value: T) | Err(error: E)
}
