/** Option and Result values: the generator's "maybe a token" answer, and the
    exceptions of its Java original made explicit. */
module Wrappers {

  datatype Option<+T> = None | Some(value: T)

  datatype Result<+R, +E> = Success(value: R) | Failure(error: E)
}
