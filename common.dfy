/** Option and Result, shared by the model's modules. */
module Common {

  /** A value that may be missing (`undefined` or `null` in the application). */
  datatype Option<+T> = None | Some(value: T)

  /** The outcome of an operation that may throw. */
  datatype Result<+T, +E> = Success(value: T) | Failure(error: E)

  function Min(a: int, b: int): int {
    if a <= b then a else b
  }
}
