/** Option and Result values shared by every module of the model. A Go function
    that returns `(value, error)` becomes a `Result`; a Go pointer that may be
    nil becomes an `Option`. */
module Wrappers {

  datatype Option<+T> = None | Some(value: T)

  datatype Result<+T, +E> = Success(value: T) | Failure(error: E) {
    predicate IsFailure() {
      Failure?
    }
  }
}
