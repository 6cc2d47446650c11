/** Optional values and success/failure results, used for the .NET `null`
    returns and exceptions of the modelled code. */
module Outcomes {

  datatype Option<+T> = None | Some(value: T)

  datatype Result<+T, +E> = Ok(value: T) | Err(error: E)
}
