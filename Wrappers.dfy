/** Optional values and results with an error, the shapes the PHP code expresses
    with `null` and with exceptions caught at the command boundary. */
module Wrappers {

  datatype Option<+T> = None | Some(value: T)

  datatype Result<+T, +E> = Success(value: T) | Failure(error: E)
}
