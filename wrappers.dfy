/** Option and Result, the two shapes the feed core uses for absent values
    (`null`/`undefined`) and for a thunk that either fulfils or rejects. */
module Wrappers {

  datatype Option<+T> = None | Some(value: T)

  datatype Result<+R, +E> = Success(value: R) | Failure(error: E)
}
