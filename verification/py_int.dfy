/** Python's integer floor division, which the layout and size helpers use. */
module PyInt {
  import opened Wrappers

  /**
   * `a // b` for `b != 0`: the quotient rounded towards minus infinity.
   * Dafny's `/` is Euclidean, which agrees with it only for `b > 0`.
   */
  function FloorDiv(a: int, b: int): (q: int)
    requires b != 0
    ensures b > 0 ==> q * b <= a < q * b + b
    ensures b < 0 ==> q * b + b < a <= q * b
  {
    if b > 0 then a / b else (-a) / (-b)
  }

  /** The error `//` and `/` raise on a zero divisor. */
  const ZERO_DIVISION := "ZeroDivisionError: integer division or modulo by zero"

  /** `a // b`, which raises `ZeroDivisionError` for `b == 0`. */
  function PyFloorDiv(a: int, b: int): (r: Result<int, string>)
    ensures r.Failure? <==> b == 0
    ensures r.Failure? ==> r.error == ZERO_DIVISION
    ensures r.Success? ==> r.value == FloorDiv(a, b)
  {
    if b == 0 then Failure(ZERO_DIVISION)
    else Success(FloorDiv(a, b))
  }
}
