/** Failure-compatible wrappers shared by the engine and the evaluator. */
module Results {

  /** An optional value: Python's `None` or a value. */
  datatype Option<T> = None | Some(value: T)

  /** Either a value or the message of the `ValueError` the source raises. */
  datatype Result<T> = Success(value: T) | Failure(message: string)
}
