/** Outcomes of operations that can fail, in place of Python exceptions. */
module Results {

  /** The value of a call that returned, or the exception that ended it. */
  datatype Result<+T, +E> = Success(value: T) | Failure(error: E)

  datatype Option<+T> = None | Some(value: T)
}
