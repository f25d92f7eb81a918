/** Small shared vocabulary: optional values, results with an error, and
    the two-element min/max that the Ruby code writes as `[a, b].min`. */
module Wrappers {

  datatype Option<+T> = None | Some(value: T) {
    /** Ruby's `value || default`. */
    function GetOr(default: T): T {
      match this
      case Some(v) => v
      case None => default
    }
  }

  datatype Result<+R, +E> = Success(value: R) | Failure(error: E)

  function Min(a: real, b: real): (m: real)
    ensures m <= a && m <= b && (m == a || m == b)
  {
    if a <= b then a else b
  }

  function Max(a: real, b: real): (m: real)
    ensures m >= a && m >= b && (m == a || m == b)
  {
    if a >= b then a else b
  }
}
