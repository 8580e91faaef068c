/** Option and Result, the two shapes the client uses for "maybe absent"
    (JavaScript null/undefined) and "may fail" (a rejected query). */
module Wrappers {

  datatype Option<+T> = None | Some(value: T)

  datatype Result<+R, +E> = Success(value: R) | Failure(error: E)
}
