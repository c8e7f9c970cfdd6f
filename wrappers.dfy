/** Option, Result and Outcome: the values and raised exceptions of the Python code. */
module Wrappers {

  datatype Option<+T> = None | Some(value: T)

  /** A value returned normally, or the exception raised instead. */
  datatype Result<+T, +E> = Success(value: T) | Failure(error: E)

  /** A procedure that returns None normally, or the exception raised instead. */
  datatype Outcome<+E> = Pass | Fail(error: E)

  function Min(a: int, b: int): (m: int)
    ensures m <= a && m <= b && (m == a || m == b)
  {
    if a <= b then a else b
  }
}
