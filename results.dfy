/** Option and Result wrappers shared by the schedule generators. */
module Results {

  datatype Option<+T> = None | Some(value: T)

  /** The outcome of an operation that can be rejected with an error. */
  datatype Result<+R, +E> = Success(value: R) | Failure(error: E)

  function Min(a: int, b: int): int { if a <= b then a else b }

  function Max(a: int, b: int): int { if a <= b then b else a }
}
