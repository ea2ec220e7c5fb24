/** Option and Result, shared by both utility modules. */
module Wrappers {

  /** A value that may be absent. In the Collections model `None` stands for Java's `null`. */
  datatype Option<+T> = None | Some(value: T)

  /** The outcome of a computation that either returns a value or throws a failure. */
  datatype Result<+R, +E> = Success(value: R) | Failure(error: E)
}
