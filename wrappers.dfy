/** Option and Result values for the JavaScript `null`/`undefined` and thrown-error cases. */
module Wrappers {

  datatype Option<+T> = None | Some(value: T)

  datatype Result<+T> = Success(value: T) | Failure(error: string)
}
