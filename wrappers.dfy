/** Option and Result values, used where the chatbot returns "nothing" or an error string. */
module Wrappers {

  datatype Option<+T> = None | Some(value: T)

  datatype Result<+T, +E> = Success(value: T) | Failure(error: E)
}
