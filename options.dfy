/** Optional values and call outcomes used across the model. */
module Options {

  /** A value that may be absent, like a missing JSON property. */
  datatype Option<+T> = None | Some(value: T)

  /** The outcome of a call that yields a value or fails with an error. */
  datatype Result<+R, +E> = Success(value: R) | Failure(error: E)

  /** The outcome of a call that yields nothing or fails with an error. */
  datatype Outcome<+E> = Pass | Fail(error: E)

  /** The smaller of two integers. */
  function Min(a: int, b: int): (m: int)
    ensures m <= a && m <= b
    ensures m == a || m == b
  {
    if a <= b then a else b
  }
}
