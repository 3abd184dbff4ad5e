/** The parts of JavaScript's runtime behaviour that the modelled code relies on:
    optional values, the TypeError raised by reading a member of `undefined` or
    `null`, and the quotient of two finite numbers. */
module Js {

  datatype Option<+T> = None | Some(value: T)

  /** The one runtime failure the modelled code can raise. */
  datatype Error = TypeError

  datatype Result<+T> = Ok(value: T) | Err(error: Error)

  /** How a block of statements ends: normally, or by throwing. */
  datatype Outcome = Normal | Threw(error: Error)

  /** The value of `a / b` for finite `a` and `b`: a finite number, or one of the
      values IEEE division by zero produces. */
  datatype Quotient = Finite(q: real) | PositiveInfinity | NegativeInfinity | NaN

  /** `a / b`, where the divisor of zero is the positive zero that `x - x` yields. */
  function Divide(a: real, b: real): (r: Quotient)
    ensures r.Finite? <==> b != 0.0
    ensures r.Finite? ==> r.q * b == a
    ensures r == PositiveInfinity <==> b == 0.0 && a > 0.0
    ensures r == NegativeInfinity <==> b == 0.0 && a < 0.0
    ensures r == NaN <==> a == 0.0 && b == 0.0
  {
    if b != 0.0 then Finite(a / b)
    else if a > 0.0 then PositiveInfinity
    else if a < 0.0 then NegativeInfinity
    else NaN
  }

  /** Negating both operands of a division by a non-zero number leaves the quotient
      unchanged. */
  lemma DivideNegated(a: real, b: real)
    requires b != 0.0
    ensures Divide(-a, -b) == Divide(a, b)
  {
    assert (-a) / (-b) == a / b;
  }

  /** Scaling both operands by the same positive factor leaves the quotient unchanged. */
  lemma DivideScaled(k: real, a: real, b: real)
    requires k > 0.0
    ensures Divide(k * a, k * b) == Divide(a, b)
  {
    if b != 0.0 {
      assert k * b != 0.0;
      assert (k * a) / (k * b) == a / b by {
        assert (a / b) * (k * b) == k * a;
      }
    } else {
      assert k * b == 0.0;
      assert k * a > 0.0 <==> a > 0.0;
      assert k * a < 0.0 <==> a < 0.0;
    }
  }
}
