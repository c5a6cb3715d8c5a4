/** Failure-compatible wrappers and the JavaScript notion of a "truthy" number.

    The application stores nullable numeric columns (`number | null`); they
    are modelled as `Option<real>`.  In JavaScript `x || d` yields `d` when
    `x` is `null`, `undefined` or `0`, which `OrElse` captures.
 */
module Common {

  datatype Option<+T> = None | Some(value: T) {

    /** The held value, or `default` when there is none (JavaScript `??`). */
    function GetOr(default: T): T {
      match this
      case Some(v) => v
      case None => default
    }
  }

  datatype Result<+R, +E> = Success(value: R) | Failure(error: E)

  /** A nullable number is truthy when it is present and not zero. */
  predicate Truthy(x: Option<real>) {
    x.Some? && x.value != 0.0
  }

  /** JavaScript `x || d` on a nullable number. */
  function OrElse(x: Option<real>, d: real): (r: real)
    ensures Truthy(x) ==> r == x.value
    ensures !Truthy(x) ==> r == d
  {
    if Truthy(x) then x.value else d
  }

  /** JavaScript `x || d` on an integer (0 is falsy). */
  function IntOrElse(x: Option<int>, d: int): (r: int)
    ensures x.Some? && x.value != 0 ==> r == x.value
    ensures x.None? || x.value == 0 ==> r == d
  {
    if x.Some? && x.value != 0 then x.value else d
  }

  function Max(a: real, b: real): (r: real)
    ensures r >= a && r >= b
    ensures r == a || r == b
  {
    if a >= b then a else b
  }

  function Abs(x: real): (r: real)
    ensures r >= 0.0
    ensures r == x || r == -x
  {
    if x < 0.0 then -x else x
  }
}
