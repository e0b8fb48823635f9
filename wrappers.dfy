/** Optional values and results with an error case, used for the optional
    scaler and for the inputs on which the analytics raise. */
module Wrappers {

  datatype Option<+T> = None | Some(value: T)

  datatype Result<+T, +E> = Ok(value: T) | Err(error: E)
}
