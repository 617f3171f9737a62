/** Option and Result: the shapes every fallible operation of the model returns.
    JavaScript's `null`/`undefined` become `None`; a thrown error becomes `Failure`. */
module Base {

  datatype Option<+T> = None | Some(value: T) {

    /** The wrapped value, or `default` for `None` (JavaScript's `x || default` on objects). */
    function GetOr(default: T): T {
      match this
      case Some(v) => v
      case None => default
    }
  }

  datatype Result<+T, +E> = Success(value: T) | Failure(error: E)

  function Min(a: int, b: int): int {
    if a <= b then a else b
  }
}
