/** Optional values and results with an error, used for the nullable pointers,
    std::optional results and thrown exceptions of the configuration reader. */
module Wrappers {

  datatype Option<+T> = None | Some(value: T)

  datatype Result<+T, +E> = Ok(value: T) | Err(error: E)
}
