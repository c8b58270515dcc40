/** Swift's optionals and throwing calls, as values. */
module Wrappers {

  /** `T?` in Swift. */
  datatype Option<+T> = None | Some(value: T)

  /** The outcome of a `throws` call: the returned value or the thrown error. */
  datatype Result<+T, +E> = Success(value: T) | Failure(error: E)
}
