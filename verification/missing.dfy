/**
 Missing values of the price data frame.

 A float column of the frame may hold NaN where a value is unknown. This module
 models such a cell as `Option<real>`: `None` is NaN, `Some(x)` a known value.
 Arithmetic with a missing operand is missing, a comparison with a missing
 operand is false, and `fillna(0)` turns a missing cell into 0.
 It also holds the `Result` type used for the pipeline's error paths.
 */
module Missing {

  datatype Option<+T> = None | Some(value: T) {

    /** The carried value, or `default` when there is none. */
    function GetOr(default: T): T {
      match this
      case Some(v) => v
      case None => default
    }
  }

  /** Outcome of a step that may raise: a value, or the error it raised. */
  datatype Result<+R, +E> = Success(value: R) | Failure(error: E) {

    predicate IsFailure() {
      Failure?
    }

    function PropagateFailure<U>(): Result<U, E>
      requires Failure?
    {
      Failure(error)
    }

    function Extract(): R
      requires Success?
    {
      value
    }
  }

  /** `a - b` on float cells. */
  function Sub(a: Option<real>, b: Option<real>): (r: Option<real>)
    ensures r.Some? <==> a.Some? && b.Some?
    ensures r.Some? ==> r.value + b.value == a.value
  {
    if a.Some? && b.Some? then Some(a.value - b.value) else None
  }

  /** `a * b` on float cells: known exactly when both factors are, and then
      their product. */
  function Mul(a: Option<real>, b: Option<real>): (r: Option<real>)
    ensures r.Some? <==> a.Some? && b.Some?
    ensures r.Some? ==> r.value == a.value * b.value
  {
    if a.Some? && b.Some? then Some(a.value * b.value) else None
  }

  /** `a > b` on float cells: any comparison with NaN is false. */
  predicate Greater(a: Option<real>, b: Option<real>) {
    a.Some? && b.Some? && a.value > b.value
  }

  /** `fillna(0)` on one cell. */
  function FillZero(a: Option<real>): (r: real)
    ensures a.Some? ==> r == a.value
    ensures a.None? ==> r == 0.0
  {
    a.GetOr(0.0)
  }
}
