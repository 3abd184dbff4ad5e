/** The arrow marker of functions/linedArrow.js: a `Point` feature at the
    destination, rotated along the direction from `posFrom` to `posTo`. */
module LinedArrow {
  import opened Js
  import opened GeoJson

  /** `Math.atan(q) * 180 / Math.PI` for a quotient that is not NaN: the arctangent
      in degrees, a floating-point kernel, so a parameter. */
  type AtanDegrees = Quotient -> real

  /** `getFlipAngle()`: the half turn added when the arrow points left and not
      horizontally. */
  function FlipAngle(posFrom: Position, posTo: Position): (r: int)
    ensures r == 0 || r == 180
    ensures r == 180 <==> posTo.x < posFrom.x && posTo.y != posFrom.y
  {
    if (posTo.y > posFrom.y && posTo.x < posFrom.x)
      || (posTo.y < posFrom.y && posTo.x < posFrom.x)
    then 180
    else 0
  }

  /** When the direction is neither horizontal nor vertical, reversing it toggles
      the flip between 0 and 180. */
  lemma FlipAngleReversed(posFrom: Position, posTo: Position)
    requires posTo.x != posFrom.x && posTo.y != posFrom.y
    ensures FlipAngle(posTo, posFrom) == 180 - FlipAngle(posFrom, posTo)
  {
  }

  /** The `angle` property: `-atan(Δy / Δx)` in degrees plus the flip. It is NaN
      exactly when the two positions coincide (Δy / Δx is 0 / 0). */
  function Angle(posFrom: Position, posTo: Position, atanDegrees: AtanDegrees): (r: Value)
    ensures r.Number? || r.NotANumber?
    ensures r.NotANumber? <==> posFrom == posTo
    ensures r.Number? ==>
      r.number + atanDegrees(Divide(posTo.y - posFrom.y, posTo.x - posFrom.x)) == FlipAngle(posFrom, posTo) as real
  {
    var q := Divide(posTo.y - posFrom.y, posTo.x - posFrom.x);
    if q == NaN then NotANumber
    else Number(-atanDegrees(q) + FlipAngle(posFrom, posTo) as real)
  }

  /** `createArrow(posFrom, posTo)`: a `Point` feature at (a copy of) `posTo` whose
      only property is `angle`. */
  function CreateArrow(posFrom: Position, posTo: Position, atanDegrees: AtanDegrees): (r: Feature)
    ensures r.geometry == PointGeometry(posTo)
    ensures r.properties.Keys == {"angle"}
    ensures r.properties["angle"] == Angle(posFrom, posTo, atanDegrees)
  {
    Feature(map["angle" := Angle(posFrom, posTo, atanDegrees)], PointGeometry(posTo))
  }

  /** Reversing a direction that is neither horizontal nor vertical turns the arrow
      by exactly half a turn. */
  lemma ArrowReversed(posFrom: Position, posTo: Position, atanDegrees: AtanDegrees)
    requires posTo.x != posFrom.x && posTo.y != posFrom.y
    ensures Angle(posFrom, posTo, atanDegrees).Number?
    ensures Angle(posTo, posFrom, atanDegrees).Number?
    ensures var forward := Angle(posFrom, posTo, atanDegrees).number;
      var backward := Angle(posTo, posFrom, atanDegrees).number;
      backward == forward + 180.0 || backward == forward - 180.0
  {
    var dy, dx := posTo.y - posFrom.y, posTo.x - posFrom.x;
    DivideNegated(dy, dx);
    assert posFrom.y - posTo.y == -dy && posFrom.x - posTo.x == -dx;
    FlipAngleReversed(posFrom, posTo);
  }

  /** The position scaled about the origin. */
  function Scale(k: real, p: Position): (r: Position)
    ensures k != 0.0 ==> p == Position(r.x / k, r.y / k)
  {
    Position(k * p.x, k * p.y)
  }

  /** Scaling both positions by the same positive factor leaves the angle unchanged. */
  lemma ArrowScaled(k: real, posFrom: Position, posTo: Position, atanDegrees: AtanDegrees)
    requires k > 0.0
    ensures Angle(Scale(k, posFrom), Scale(k, posTo), atanDegrees) == Angle(posFrom, posTo, atanDegrees)
  {
    var sFrom, sTo := Scale(k, posFrom), Scale(k, posTo);
    var dy, dx := posTo.y - posFrom.y, posTo.x - posFrom.x;
    assert sTo.y - sFrom.y == k * dy;
    assert sTo.x - sFrom.x == k * dx;
    DivideScaled(k, dy, dx);
    SignScaled(k, dx);
    SignScaled(k, dy);
    assert FlipAngle(sFrom, sTo) == FlipAngle(posFrom, posTo);
  }

  lemma SignScaled(k: real, d: real)
    requires k > 0.0
    ensures k * d < 0.0 <==> d < 0.0
    ensures k * d > 0.0 <==> d > 0.0
  {
    if d < 0.0 {
      assert k * (-d) > 0.0;
    } else if d > 0.0 {
      assert k * d > 0.0;
    }
  }
}
