/** Optional values (for Java's `null` and `Optional`) and results (for thrown exceptions). */
module Wrappers {

  /** `None` stands for Java's `null` or an empty `Optional`. */
  datatype Option<+T> = None | Some(value: T)

  /** `Failure` stands for an exception thrown (or a future completed exceptionally). */
  datatype Result<+T, +E> = Success(value: T) | Failure(error: E)
}
