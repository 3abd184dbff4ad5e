/** The curve builder of functions/spline.js: one Catmull-Rom curve through the
    endpoints of all segments, sampled once and cut back into one `LineString`
    feature per segment. */
module Spline {
  import opened Js
  import opened GeoJson

  /** A segment as `createSpline` receives it: `{from, to, properties?}`. */
  datatype Segment = Segment(from: Position, to: Position, properties: Option<Properties>)

  /** `catmullRom(tt, v0, v1, v2, v3, 1)`: the blending of the four neighbourhood
      points at local parameter `tt`, with the alpha of 1 the module fixes. Its
      floating-point arithmetic is not modelled, so it is a parameter. */
  type Kernel = (real, Position, Position, Position, Position) -> Position

  /** `d3.quantize(curve, count)`: samples of a curve over [0, 1]. A library call,
      so it is a parameter, assumed to return exactly the requested count. */
  type Sampler = (real -> Position, nat) -> seq<Position>

  ghost predicate ReturnsRequestedCount(quantize: Sampler)
  {
    forall curve, count :: |quantize(curve, count)| == count
  }

  /** A kernel that yields `v1` at the start of its segment and `v2` at the end
      whenever consecutive points of the neighbourhood differ. A Catmull-Rom blend
      does so; where two consecutive points coincide, its knot spacing is 0 and
      `sum` divides 0 by 0, so the blend is NaN and nothing is promised. */
  ghost predicate PassesThroughEnds(kernel: Kernel)
  {
    forall v0, v1, v2, v3 | v0 != v1 && v1 != v2 && v2 != v3 ::
      kernel(0.0, v0, v1, v2, v3) == v1 && kernel(1.0, v0, v1, v2, v3) == v2
  }

  /** No two consecutive control points coincide. */
  predicate DistinctNeighbours(values: seq<Position>)
  {
    forall k :: 0 <= k < |values| - 1 ==> values[k] != values[k + 1]
  }

  /** `sum(fu, u, fv, v, div)`: the coordinate-wise combination `(fu·u + fv·v) / div`.
      When the weights add up to the divisor, it is the point of the line through
      `u` and `v` that lies `fv / div` of the way from `u` to `v`. */
  function Sum(fu: real, u: Position, fv: real, v: Position, div: real): (r: Position)
    requires div != 0.0
    ensures fu + fv == div ==>
      r.x == u.x + fv / div * (v.x - u.x) && r.y == u.y + fv / div * (v.y - u.y)
  {
    Position((fu * u.x + fv * v.x) / div, (fu * u.y + fv * v.y) / div)
  }

  function Midpoint(a: Position, b: Position): (r: Position)
    ensures r == a <==> a == b
  {
    Position((a.x + b.x) / 2.0, (a.y + b.y) / 2.0)
  }

  /** The segment of the chain of `n` segments that the interpolator evaluates at
      parameter `t`: `t` clamped to [0, 1], and the last segment for `t = 1`. */
  function SegmentIndex(n: nat, t: real): (i: nat)
    requires n >= 1
    ensures i <= n - 1
    ensures t <= 0.0 ==> i == 0
    ensures t >= 1.0 ==> i == n - 1
  {
    if t <= 0.0 then 0
    else if t >= 1.0 then n - 1
    else
      assert t * n as real > 0.0;
      (t * n as real).Floor
  }

  /** Inside (0, 1), the chosen segment is the one whose knot interval
      [i/n, (i+1)/n) holds `t`. */
  lemma SegmentIndexHoldsParameter(n: nat, t: real)
    requires n >= 1 && 0.0 < t < 1.0
    ensures var i := SegmentIndex(n, t);
      i as real / n as real <= t < (i + 1) as real / n as real
  {
    var i := SegmentIndex(n, t);
    var m := n as real;
    assert i as real <= t * m < i as real + 1.0;
    assert i as real / m <= t by {
      assert (i as real / m) * m == i as real;
    }
    assert t < (i + 1) as real / m by {
      assert ((i + 1) as real / m) * m == (i + 1) as real;
    }
  }

  /** The parameter `t` with the interpolator's clamping to [0, 1]. */
  function Clamp(t: real): (r: real)
    ensures 0.0 <= r <= 1.0
    ensures 0.0 <= t <= 1.0 ==> r == t
  {
    if t <= 0.0 then 0.0 else if t >= 1.0 then 1.0 else t
  }

  /** `(t - i / n) * n`: the parameter local to the chosen segment. It always lies
      in [0, 1]; it is 0 before the chain and 1 after it. */
  function LocalParameter(n: nat, t: real): (r: real)
    requires n >= 1
    ensures 0.0 <= r <= 1.0
    ensures t <= 0.0 ==> r == 0.0
    ensures t >= 1.0 ==> r == 1.0
  {
    var i := SegmentIndex(n, t);
    var m := n as real;
    assert (Clamp(t) - i as real / m) * m == Clamp(t) * m - i as real by {
      assert (i as real / m) * m == i as real;
    }
    assert 0.0 < t < 1.0 ==> i as real <= t * m < i as real + 1.0;
    (Clamp(t) - i as real / m) * m
  }

  /** The four points `v0, v1, v2, v3` around segment `i` of `values`. At the ends
      of the chain the missing neighbour is the reflection of the next point:
      `sum(2, v1, -1, v2)` before the first point, `sum(2, v2, -1, v1)` after the last. */
  function Neighbourhood(values: seq<Position>, i: nat): (r: (Position, Position, Position, Position))
    requires |values| >= 2 && i < |values| - 1
    ensures r.1 == values[i] && r.2 == values[i + 1]
    ensures i > 0 ==> r.0 == values[i - 1]
    ensures i == 0 ==> Midpoint(r.0, r.2) == r.1
    ensures i < |values| - 2 ==> r.3 == values[i + 2]
    ensures i == |values| - 2 ==> Midpoint(r.1, r.3) == r.2
    ensures DistinctNeighbours(values) ==> r.0 != r.1 && r.1 != r.2 && r.2 != r.3
  {
    var n := |values| - 1;
    var v1 := values[i];
    var v2 := values[i + 1];
    var v0 := if i > 0 then values[i - 1] else Sum(2.0, v1, -1.0, v2, 1.0);
    var v3 := if i < n - 1 then values[i + 2] else Sum(2.0, v2, -1.0, v1, 1.0);
    (v0, v1, v2, v3)
  }

  /** The interpolator `interpolateCatmullRom()(values)` evaluated at `t`. With a
      kernel that passes through its segment's ends and a chain without repeated
      consecutive points, the curve starts at the first control point and ends at
      the last, and stays there outside [0, 1]. */
  function Interpolate(kernel: Kernel, values: seq<Position>, t: real): (r: Position)
    requires |values| >= 2
    ensures PassesThroughEnds(kernel) && DistinctNeighbours(values) && t <= 0.0 ==> r == values[0]
    ensures PassesThroughEnds(kernel) && DistinctNeighbours(values) && t >= 1.0 ==> r == values[|values| - 1]
  {
    var n := |values| - 1;
    var i := SegmentIndex(n, t);
    var (v0, v1, v2, v3) := Neighbourhood(values, i);
    kernel(LocalParameter(n, t), v0, v1, v2, v3)
  }

  /** The parameter is clamped to [0, 1] before it is used: the interpolator at
      `t` is the interpolator at the clamped `t`. */
  lemma InterpolateClamps(kernel: Kernel, values: seq<Position>, t: real)
    requires |values| >= 2
    ensures Interpolate(kernel, values, t) == Interpolate(kernel, values, Clamp(t))
  {
    var n := |values| - 1;
    assert SegmentIndex(n, t) == SegmentIndex(n, Clamp(t));
    assert LocalParameter(n, t) == LocalParameter(n, Clamp(t));
  }

  /** The interpolator as a curve over the parameter. */
  function Curve(kernel: Kernel, values: seq<Position>): real -> Position
    requires |values| >= 2
  {
    t => Interpolate(kernel, values, t)
  }

  /** With a kernel that passes through its segment's ends and a chain without
      repeated consecutive points, the curve runs from the first control point at
      0 to the last at 1. */
  lemma CurveEnds(kernel: Kernel, values: seq<Position>)
    requires |values| >= 2
    requires PassesThroughEnds(kernel) && DistinctNeighbours(values)
    ensures Curve(kernel, values)(0.0) == values[0]
    ensures Curve(kernel, values)(1.0) == values[|values| - 1]
  {
  }

  /** With a kernel that passes through the ends of its segment and a chain without
      repeated consecutive points, the curve passes through every control point:
      `values[k]` at the knot `t = k / n`. */
  lemma InterpolateAtKnot(kernel: Kernel, values: seq<Position>, k: nat)
    requires |values| >= 2 && k < |values|
    requires PassesThroughEnds(kernel) && DistinctNeighbours(values)
    ensures Interpolate(kernel, values, k as real / (|values| - 1) as real) == values[k]
  {
    var n := |values| - 1;
    var t := k as real / n as real;
    if k == 0 {
      assert t == 0.0;
    } else if k == n {
      assert k as real == n as real;
      assert t == 1.0 by {
        var m := n as real;
        assert t * m == 1.0 * m;
      }
    } else {
      InnerKnot(n, k);
      InterpolateAtSegmentStart(kernel, values, k, t);
    }
  }

  /** Where the parameter selects segment `i` at its start, the curve is at point `i`. */
  lemma InterpolateAtSegmentStart(kernel: Kernel, values: seq<Position>, i: nat, t: real)
    requires |values| >= 2 && i < |values| - 1
    requires PassesThroughEnds(kernel) && DistinctNeighbours(values)
    requires SegmentIndex(|values| - 1, t) == i && LocalParameter(|values| - 1, t) == 0.0
    ensures Interpolate(kernel, values, t) == values[i]
  {
    var (v0, v1, v2, v3) := Neighbourhood(values, i);
    assert v0 != v1 && v1 != v2 && v2 != v3;
    assert Interpolate(kernel, values, t) == kernel(0.0, v0, v1, v2, v3);
  }

  /** An inner knot `k / n` selects segment `k` at its start. */
  lemma InnerKnot(n: nat, k: nat)
    requires 0 < k < n
    ensures SegmentIndex(n, k as real / n as real) == k
    ensures LocalParameter(n, k as real / n as real) == 0.0
  {
    var m := n as real;
    var t := k as real / m;
    assert t * m == k as real;
    assert 0.0 < t < 1.0 by {
      assert t * m < m;
    }
    assert SegmentIndex(n, t) == k by {
      assert (t * m).Floor == k;
    }
    assert LocalParameter(n, t) == 0.0 by {
      assert Clamp(t) == t;
      assert (t - k as real / m) * m == 0.0;
    }
  }

  /** The control chain `[...lines.map(line => line.from), lines[lines.length - 1].to]`. */
  function ControlChain(lines: seq<Segment>): (r: seq<Position>)
    requires |lines| > 0
    ensures |r| == |lines| + 1
    ensures forall i :: 0 <= i < |lines| ==> r[i] == lines[i].from
    ensures r[|lines|] == lines[|lines| - 1].to
  {
    seq(|lines|, i requires 0 <= i < |lines| => lines[i].from) + [lines[|lines| - 1].to]
  }

  /** The samples of the whole chain: 100 per segment, as `interpolatedCount` starts at 100. */
  function Samples(lines: seq<Segment>, kernel: Kernel, quantize: Sampler): (r: seq<Position>)
    requires |lines| > 0 && ReturnsRequestedCount(quantize)
    ensures |r| == 100 * |lines|
  {
    quantize(Curve(kernel, ControlChain(lines)), 100 * |lines|)
  }

  /** `{ ...line.properties } ?? {}`: a copy of the segment's properties, or an empty
      bag when it has none (spreading `undefined` gives `{}`, so the `?? {}`
      alternative is never taken). */
  function CopyProperties(properties: Option<Properties>): (r: Properties)
    ensures properties.Some? ==> r.Keys == properties.value.Keys
    ensures forall key :: key in r ==> properties.Some? && key in properties.value && r[key] == properties.value[key]
  {
    match properties
    case Some(m) => m
    case None => map[]
  }

  /** The cut of `s` into `n` consecutive chunks of 100 samples. */
  function Chunks(s: seq<Position>, n: nat): (r: seq<seq<Position>>)
    requires |s| == 100 * n
  {
    seq(n, i requires 0 <= i < n => s[100 * i .. 100 * (i + 1)])
  }

  function Flatten(chunks: seq<seq<Position>>): (r: seq<Position>)
  {
    if chunks == [] then [] else chunks[0] + Flatten(chunks[1..])
  }

  lemma SliceOfSuffix(s: seq<Position>, a: nat, b: nat, c: nat)
    requires a <= |s| && b <= c <= |s| - a
    ensures s[a..][b..c] == s[a + b .. a + c]
  {
    assert forall k :: 0 <= k < c - b ==> s[a..][b..c][k] == s[a + b + k];
  }

  /** The chunks are contiguous and do not overlap: together they are the samples. */
  lemma {:induction false} FlattenChunks(s: seq<Position>, n: nat)
    requires |s| == 100 * n
    ensures Flatten(Chunks(s, n)) == s
  {
    if n > 0 {
      var rest := s[100..];
      assert Chunks(s, n)[1..] == Chunks(rest, n - 1) by {
        forall i | 0 <= i < n - 1
          ensures Chunks(s, n)[1..][i] == Chunks(rest, n - 1)[i]
        {
          SliceOfSuffix(s, 100, 100 * i, 100 * i + 100);
        }
      }
      FlattenChunks(rest, n - 1);
      assert s == s[..100] + rest;
    }
  }

  /** The features `createSpline` returns: one `LineString` per segment, in order,
      holding that segment's chunk of the samples and a copy of its properties. */
  function CurveFeatures(lines: seq<Segment>, kernel: Kernel, quantize: Sampler): (r: seq<Feature>)
    requires |lines| > 0 && ReturnsRequestedCount(quantize)
  {
    var chunks := Chunks(Samples(lines, kernel, quantize), |lines|);
    seq(|lines|, i requires 0 <= i < |lines| =>
      Feature(CopyProperties(lines[i].properties), LineStringGeometry(chunks[i])))
  }

  /** `createSpline(lines)`. */
  method CreateSpline(lines: seq<Segment>, kernel: Kernel, quantize: Sampler) returns (lineStrings: seq<Feature>)
    requires |lines| > 0
    requires ReturnsRequestedCount(quantize)
    ensures lineStrings == CurveFeatures(lines, kernel, quantize)
  {
    var linesCount := |lines|;
    var interpolatedCount := 100;
    var positions := ControlChain(lines);
    interpolatedCount := interpolatedCount * linesCount;
    var interpolated := quantize(Curve(kernel, positions), interpolatedCount);
    var perLine := interpolatedCount / linesCount;
    assert perLine == 100 by {
      assert interpolatedCount == 100 * linesCount;
      assert (100 * linesCount) / linesCount == 100;
    }
    lineStrings := [];
    var i := 0;
    while i < linesCount
      invariant 0 <= i <= linesCount
      invariant lineStrings == CurveFeatures(lines, kernel, quantize)[..i]
    {
      var line := lines[i];
      assert perLine * i == 100 * i && perLine * (i + 1) == 100 * (i + 1);
      lineStrings := lineStrings + [Feature(
        CopyProperties(line.properties),
        LineStringGeometry(interpolated[perLine * i .. perLine * (i + 1)]))];
      i := i + 1;
    }
  }

  /** One feature per segment, in segment order: feature `i` is a `LineString` of
      exactly 100 samples, the `i`-th chunk of the samples, and
      carries the properties of segment `i`, or none when it has none. */
  lemma CurveFeaturesShape(lines: seq<Segment>, kernel: Kernel, quantize: Sampler)
    requires |lines| > 0 && ReturnsRequestedCount(quantize)
    ensures var r := CurveFeatures(lines, kernel, quantize);
      && |r| == |lines|
      && forall i :: 0 <= i < |lines| ==>
        && r[i].geometry.LineStringGeometry?
        && |r[i].geometry.coordinates| == 100
        && r[i].geometry.coordinates
           == Samples(lines, kernel, quantize)[100 * i .. 100 * (i + 1)]
        && (lines[i].properties.Some? ==> r[i].properties == lines[i].properties.value)
        && (lines[i].properties.None? ==> r[i].properties == map[])
  {
  }

  /** Reading the curves back as lines gives the chunks, and those chunks laid end
      to end are exactly the samples of the whole chain. */
  lemma CurveFeaturesCoverSamples(lines: seq<Segment>, kernel: Kernel, quantize: Sampler)
    requires |lines| > 0 && ReturnsRequestedCount(quantize)
    ensures LineCoordinates(CurveFeatures(lines, kernel, quantize))
         == Chunks(Samples(lines, kernel, quantize), |lines|)
    ensures Flatten(LineCoordinates(CurveFeatures(lines, kernel, quantize)))
         == Samples(lines, kernel, quantize)
  {
    var r := CurveFeatures(lines, kernel, quantize);
    var s := Samples(lines, kernel, quantize);
    LineCoordinatesOfLines(r);
    FlattenChunks(s, |lines|);
  }
}
