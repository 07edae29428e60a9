/** Option and Result values, used where the Python code returns None or raises. */
module Wrappers {

  datatype Option<+T> = None | Some(value: T)

  /** The exceptions the modelled code can raise, as values. */
  datatype Error =
    | KeyError(key: string)      // a dictionary lookup of a missing key
    | ValueError(message: string) // an explicit `raise ValueError(...)`

  datatype Result<+T> = Success(value: T) | Failure(error: Error)
}
