/** Failure-carrying values used throughout the model: `Option` stands for a Go
    nil pointer or a missing entry, `Result` for a Go `(value, error)` pair. */
module Wrappers {

  datatype Option<+T> = None | Some(value: T)

  datatype Result<+T, +E> = Success(value: T) | Failure(error: E)
}
