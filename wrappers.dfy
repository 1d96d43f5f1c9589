/** Failure-compatible wrappers: `Option` stands for PHP's `T|null` return types,
    `Result` for a value that is either returned or thrown. */
module Wrappers {

  datatype Option<+T> = None | Some(value: T)

  datatype Result<+T, +E> = Success(value: T) | Failure(error: E)
}
