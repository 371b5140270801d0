/** Option and Result: a function pointer that may be null, and a range the compiler may reject. */
module Wrappers {

  datatype Option<+T> = None | Some(value: T)

  datatype Result<+T, +E> = Success(value: T) | Failure(error: E)
}
