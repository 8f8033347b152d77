/** Option and Result: the outcome types the service's operations return. */
module Wrappers {

  datatype Option<+T> = None | Some(value: T)

  /** `Err` carries the HTTP error the endpoint raises; `Ok` its response body. */
  datatype Result<+T, +E> = Ok(value: T) | Err(error: E)
}
