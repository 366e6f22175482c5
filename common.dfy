/** Optional values and results shared by every module of the model. */
module Common {
  /** A value that may be missing: Python's `None`, a NaN cell, a JSON key that is absent. */
  datatype Option<T> = None | Some(value: T)

  /** The outcome of a step that can stop with an error. */
  datatype Result<T, E> = Success(value: T) | Failure(error: E)
}
