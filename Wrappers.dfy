/** Optional values and results with an error message. Python's `None` is `None`;
    a raised exception is `Err` carrying the text `str(e)` would give. */
module Wrappers {

  datatype Option<+T> = None | Some(value: T)

  datatype Result<+T> = Ok(value: T) | Err(message: string)
}
