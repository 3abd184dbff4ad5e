# SplineWrapper, modelled in Dafny

SplineWrapper draws curved connector lines with arrowheads on a map. It takes a
list of segments (`{from, to, properties}`), threads one Catmull-Rom curve through
all of their endpoints, samples it and cuts the samples back into one GeoJSON
`LineString` feature per segment. It then puts an arrow marker (a `Point` feature
with an `angle` property) on every line of the base collection and on every
generated curve, and appends the generated features to the base
`FeatureCollection` of its child source. The host application derives the
segments by pairing consecutive locations.

The model has one module per source file, plus two shared ones:

- `Js` (js.dfy): optional values, the `TypeError` raised by reading a member of
  `undefined`/`null`, and JavaScript division of finite numbers (`Divide`, with
  its infinities and NaN).
- `GeoJson` (geojson.dfy): two-element positions, geometries (`Point`,
  `LineString`, any other type by name, and the `null` geometry RFC 7946
  section 3.2 allows), features and feature collections. It also has
  `LineCoordinates`, which keeps the coordinates of the `LineString` features.
- `Spline` (spline.dfy), for `functions/spline.js`:
  - The interpolator's segment choice (`SegmentIndex`, `LocalParameter`) and its
    neighbourhood with synthesised end points (`Neighbourhood`, built with `Sum`).
  - `Interpolate` and `Curve`, with the blending kernel abstract.
  - The control chain (`ControlChain`) and the sample count (`Samples`).
  - `CreateSpline`, the imperative loop, proved equal to the specification
    function `CurveFeatures`.
- `LinedArrow` (lined_arrow.dfy), for `functions/linedArrow.js`: `FlipAngle`,
  `Angle` and `CreateArrow`.
- `Wrapper` (wrapper.dfy), for `index.js`:
  - The arrow position index. `PositionIndex` is the JavaScript number the code
    computes; `PickPair` either picks the two coordinates or raises the
    `TypeError`.
  - The arrow loop `CreateArrows`, proved equal to the specification function
    `Arrows`.
  - `GeneratedCurves` and `EffectArrows`, the two halves of the effect, and
    `ExistingLines`, the base's `LineString` filter with its `TypeError` on a
    `null` geometry.
  - `GetFeatureCollection`.
  - The `SplineWrapper` class. Its fields are the component's two pieces of state
    (`featureCollection`, `features`). Its methods are the render-time data
    classification, the fetch resolution and the effect.
- `App` (app.dfy), for `App.js`: `Segments` and the loop `DeriveSegments`.

Numbers are Dafny `real`s. The code's collaborators that cannot be modelled
become parameters:
- the Catmull-Rom kernel `catmullRom(·, ·, ·, ·, ·, 1)` (`Spline.Kernel`);
- `d3.quantize` (`Spline.Sampler`), assumed to return exactly the number of
  samples asked for;
- `Math.atan(q) * 180 / Math.PI` (`LinedArrow.AtanDegrees`);
- the colours `getDarkColor()` returns (`colorOf`: the result of its `i`-th call).

The model follows the code in these edge cases:

- Flip rule. The arrow's half-turn flip applies only when `posTo[0] < posFrom[0]`
  and `posTo[1] != posFrom[1]`. An arrow moving exactly leftward gets no flip;
  the flip is not simply "Δx < 0".
- Center placement. The "center" index is `coordinates.length / 2`, a
  JavaScript number. For an odd length it is not a whole number, so both
  coordinates read are `undefined` and `createArrow` throws a `TypeError`. The
  same happens for any line with fewer than two coordinates. The model returns
  this error (`PickPair`, `Arrows`) rather than excluding such lines, and
  `Recompute` reports it as a thrown outcome.
- Empty segment list. `createSpline` with no segments reads
  `lines[-1].to` and throws; it does not return an empty list. Its only caller
  never calls it without segments, so `CreateSpline` requires a non-empty list,
  and `GeneratedCurves` gives no curves for an empty one.
- Null geometry. With an `arrow` prop, the `LineString` filter reads
  `feature.geometry.type` for every base feature, so a base feature with a
  `null` geometry throws a `TypeError` before any arrow is placed
  (`ExistingLines`, `EffectArrows`).
- Null `data`. A child whose `data` is `null` passes the `typeof data ===
  "object"` test, and reading `data.features` then throws (`ResolveData`).

## Model

| member | source | states |
|---|---|---|
| `Js.Divide` | src/components/SplineWrapper/functions/linedArrow.js:22 | `Δy / Δx`: finite exactly when Δx ≠ 0, and then the quotient times Δx is Δy; otherwise +Infinity, -Infinity or NaN by the sign of Δy |
| `Js.DivideNegated` | src/components/SplineWrapper/functions/linedArrow.js:22 | negating both operands of a division by a non-zero number leaves the quotient unchanged |
| `Js.DivideScaled` | src/components/SplineWrapper/functions/linedArrow.js:22 | scaling both operands by the same positive factor leaves the quotient unchanged, the infinities and NaN included |
| `GeoJson.LineCoordinates` | src/components/SplineWrapper/index.js:67-70 | the `LineString` filter keeps at most all features, and every one when all are `LineString`s; a coordinate list is kept exactly when some feature is a `LineString` with those coordinates |
| `GeoJson.LineCoordinatesOfOne` | src/components/SplineWrapper/index.js:68-70 | one feature is kept, as its coordinates, exactly when it is a `LineString`; with the next lemma this fixes the filter, order included, on every list |
| `GeoJson.LineCoordinatesAppend` | src/components/SplineWrapper/index.js:67-71 | filtering distributes over concatenation, so the base's lines come before the curves' lines |
| `GeoJson.LineCoordinatesOfLines` | src/components/SplineWrapper/index.js:71 | on features that are all `LineString`s the filter keeps each one's coordinates, in order |
| `Spline.Sum` | src/components/SplineWrapper/functions/spline.js:17-19 | `(fu·u + fv·v) / div` coordinate-wise; when the weights add up to the divisor it is the point `fv/div` of the way from `u` to `v` (so `sum(2, v1, -1, v2)` is the reflection of `v2` through `v1`) |
| `Spline.SegmentIndex` | src/components/SplineWrapper/functions/spline.js:42-45 | the chosen segment always lies in `[0, n-1]`; it is 0 for `t ≤ 0` and `n-1` for `t ≥ 1` |
| `Spline.SegmentIndexHoldsParameter` | src/components/SplineWrapper/functions/spline.js:45 | for `0 < t < 1` the chosen segment `i` is the one whose knot interval `[i/n, (i+1)/n)` holds `t` |
| `Spline.LocalParameter` | src/components/SplineWrapper/functions/spline.js:44-51 | the parameter handed to the kernel, `(t - i/n)·n` after clamping, always lies in `[0, 1]`; it is 0 before the chain and 1 after it |
| `Spline.Neighbourhood` | src/components/SplineWrapper/functions/spline.js:46-50 | `v1, v2` are points `i` and `i+1`; `v0` is point `i-1`, or, for the first segment, the point of which `v1` is the midpoint with `v2` (`2·v1 − v2`); `v3` is point `i+2`, or, for the last segment, the point of which `v2` is the midpoint with `v1` (`2·v2 − v1`); when no two consecutive points of the chain coincide, no two consecutive points of the neighbourhood do either |
| `Spline.Interpolate` | src/components/SplineWrapper/functions/spline.js:36-52 | the interpolator at `t` blends the neighbourhood of the chosen segment at the local parameter; for a chain without repeated consecutive points and a kernel that passes through its segment's ends there, it gives the first control point for `t ≤ 0` and the last for `t ≥ 1` |
| `Spline.InterpolateClamps` | src/components/SplineWrapper/functions/spline.js:44-45 | the parameter is clamped to `[0, 1]` first: the interpolator at `t` equals the interpolator at the clamped `t` |
| `Spline.CurveEnds` | src/components/SplineWrapper/functions/spline.js:43-52 | under the same conditions, the returned `function (t)` runs from the first control point at 0 to the last at 1 |
| `Spline.InterpolateAtKnot` | src/components/SplineWrapper/functions/spline.js:42-51 | for a chain without repeated consecutive points and a kernel that passes through its segment's ends there, the interpolated curve passes through every control point `k` at `t = k/n`, the first at `t = 0` and the last at `t = 1` |
| `Spline.ControlChain` | src/components/SplineWrapper/functions/spline.js:71 | the chain has `lines.length + 1` points: the `from` of each segment, then the `to` of the last |
| `Spline.Samples` | src/components/SplineWrapper/functions/spline.js:70-74 | the whole chain is sampled once into exactly `100 · lines.length` positions |
| `Spline.CopyProperties` | src/components/SplineWrapper/functions/spline.js:81 | the feature's properties hold exactly the segment's keys with the same values, and nothing when the segment has none; `{ ...undefined }` is `{}`, so the `?? {}` alternative is never taken |
| `Spline.FlattenChunks` | src/components/SplineWrapper/functions/spline.js:84 | the 100-sample chunks are contiguous and do not overlap: laid end to end they are the whole sample sequence |
| `Spline.CreateSpline` | src/components/SplineWrapper/functions/spline.js:68-90 | the loop builds exactly the specified curve features: for every segment, in order, a feature with a copy of its properties and the chunk `interpolated[100·i .. 100·(i+1))` |
| `Spline.CurveFeaturesShape` | src/components/SplineWrapper/functions/spline.js:77-87 | one feature per segment, in segment order; feature `i` is a `LineString` of exactly 100 positions, the `i`-th chunk of the samples, and carries segment `i`'s properties, or an empty bag when it has none |
| `Spline.CurveFeaturesCoverSamples` | src/components/SplineWrapper/functions/spline.js:84 | read back as lines, the curves are the chunks, and their coordinates laid end to end are exactly the samples |
| `LinedArrow.FlipAngle` | src/components/SplineWrapper/functions/linedArrow.js:8-14 | the flip is 0 or 180, and 180 exactly when `posTo[0] < posFrom[0]` and `posTo[1] ≠ posFrom[1]` (so 0 whenever `posTo[0] ≥ posFrom[0]`) |
| `LinedArrow.FlipAngleReversed` | src/components/SplineWrapper/functions/linedArrow.js:9-10 | when Δx ≠ 0 and Δy ≠ 0, swapping the two positions toggles the flip between 0 and 180 |
| `LinedArrow.Angle` | src/components/SplineWrapper/functions/linedArrow.js:18-24 | the angle is NaN exactly when the positions coincide; otherwise it plus `atanDeg(Δy/Δx)` is the flip |
| `LinedArrow.CreateArrow` | src/components/SplineWrapper/functions/linedArrow.js:7-30 | the arrow is a `Point` feature at `posTo` whose only property is `angle` |
| `LinedArrow.ArrowReversed` | src/components/SplineWrapper/functions/linedArrow.js:18-24 | reversing a direction that is neither horizontal nor vertical turns the arrow by exactly half a turn |
| `LinedArrow.ArrowScaled` | src/components/SplineWrapper/functions/linedArrow.js:18-24 | scaling both positions by the same positive factor leaves the angle unchanged |
| `Wrapper.PositionIndex` | src/components/SplineWrapper/index.js:79-86 | the `positionIndex` number is whole exactly when the placement is not "center" or the length is even, and it is then the integer index 1, `len/2` or `len-1` |
| `Wrapper.HalfIsWhole` | src/components/SplineWrapper/index.js:84-86 | `length / 2` is a whole number exactly when the length is even, and is then the integer half |
| `Wrapper.PickPair` | src/components/SplineWrapper/index.js:78-92 | the two coordinates are defined exactly when the line has at least two coordinates and, for "center", an even number; they are then `coordinates[idx-1]` and `coordinates[idx]` with `idx` 1 for "start", `len/2` for "center", `len-1` otherwise, and `1 ≤ idx ≤ len-1` |
| `Wrapper.CollectOk` | src/components/SplineWrapper/index.js:73-94 | a loop that stops at the first throw completes exactly when no step throws, and then keeps every step's value, in order |
| `Wrapper.CollectAppend` | src/components/SplineWrapper/index.js:71-94 | running the steps of one list and then those of a second that does not throw completes exactly when the first alone does, with the first's values followed by the second's |
| `Wrapper.ArrowsAppend` | src/components/SplineWrapper/index.js:71-94 | looping over lines followed by lines that all get their arrows completes exactly when the loop over the first lines does, and gives their arrows followed by the others' |
| `Wrapper.ArrowsOk` | src/components/SplineWrapper/index.js:73-94 | the loop completes exactly when every line has its two coordinates, and then gives one arrow per line, in line order, each the arrow of its line |
| `Wrapper.CreateArrows` | src/components/SplineWrapper/index.js:73-94 | the loop, reassigning `positionIndex` and pushing one arrow per line, returns the specified arrows or the first `TypeError` |
| `Wrapper.CurvesGetArrows` | src/components/SplineWrapper/index.js:73-94 | every generated curve gets its arrow, whatever the placement, because each has 100 coordinates |
| `Wrapper.GeneratedCurves` | src/components/SplineWrapper/index.js:58-60 | the effect's curves are one `LineString` per segment, and none when there are no segments |
| `Wrapper.ExistingLines` | src/components/SplineWrapper/index.js:67-70 | the filter throws a `TypeError` exactly when some base feature has a `null` geometry; otherwise it gives the coordinates of the `LineString` features, as `LineCoordinates` does |
| `Wrapper.EffectArrows` | src/components/SplineWrapper/index.js:66-71 | without an `arrow` prop or without a base collection there are no arrows, not even for the generated curves; with both, a base feature with a `null` geometry makes the effect throw |
| `Wrapper.EffectArrowsOk` | src/components/SplineWrapper/index.js:66-94 | with both, arrows are placed exactly when no base feature has a `null` geometry and every base `LineString` has its coordinates; there is then one arrow per base line and one per segment, the base's first in base order, then the curves' |
| `Wrapper.GetFeatureCollection` | src/components/SplineWrapper/index.js:104-117 | with a base, every other member is kept and the features are the base's, unchanged and in order, followed by the generated ones; without one, a `FeatureCollection` of the generated features |
| `Wrapper.MergeNothing` | src/components/SplineWrapper/index.js:105-110 | merging no features into a base gives the base back |
| `Wrapper.MergeTwice` | src/components/SplineWrapper/index.js:104-117 | merging twice is merging the concatenation once |
| `Wrapper.SplineWrapper.constructor` | src/components/SplineWrapper/index.js:22-23 | no collection is cached and there are no generated features |
| `Wrapper.SplineWrapper.ResolveData` | src/components/SplineWrapper/index.js:31-47 | while no collection is cached: an object with `features` becomes the base, a URL is handed to fetch, `null` throws, anything else leaves the base absent; a cached collection is kept; the generated features never change |
| `Wrapper.SplineWrapper.FetchResolved` | src/components/SplineWrapper/index.js:34-38 | the fetched document becomes the base collection |
| `Wrapper.SplineWrapper.Recompute` | src/components/SplineWrapper/index.js:50-102 | the base is untouched; the features are reset and become the curves followed by the arrows, whatever they were before; if a base geometry is `null` or an arrow's coordinates are undefined, the effect throws and the features stay reset |
| `Wrapper.SplineWrapper.SourceData` | src/components/SplineWrapper/index.js:104-120 | the collection handed to `<Source>`: the base's members, and its features followed by the generated ones; without a base, `{type: "FeatureCollection"}` with the generated features alone |
| `App.DeriveSegments` | src/App.js:14-26 | the loop builds exactly the specified segments |
| `App.SegmentsShape` | src/App.js:15-25 | `max(0, n-1)` segments; segment `i` runs from the swapped position of location `i` to that of location `i+1` and has a properties bag holding only `color` |
| `App.SegmentsChain` | src/App.js:18-19 | consecutive segments chain: each one's `to` is the next one's `from` |
| `App.ControlChainOfSegments` | src/App.js:16-19 | the control chain built from these segments is the list of all locations' swapped positions |

## Left out

- The Catmull-Rom blend (`catmullRom`, `deltaT`) uses floating point and `Math.pow`. It is the parameter `Spline.Kernel`.
- Repeated consecutive control points: where two consecutive points of a neighbourhood coincide, a knot spacing in `catmullRom` is 0, `sum` divides 0 by 0 and the curve is NaN. `Spline.Interpolate`, `Spline.CurveEnds` and `Spline.InterpolateAtKnot` promise nothing for such chains (for instance App locations giving the chain `[a, b, b]`), and the NaN positions are not modelled.
- The interpolator's `.alpha` option and its one-dimensional (scalar) mode are not used by this code base and are not modelled.
- `d3.quantize` is a library call. It is the parameter `Spline.Sampler`, assumed to return exactly the requested number of samples; which parameters it samples at is not modelled.
- `Math.atan` and the conversion to degrees are floating point. They are the parameter `LinedArrow.AtanDegrees`.
- Floating-point rounding is not modelled; numbers are exact reals. In floating point, `Math.floor(t * n)` could reach `n` for a `t` within rounding of 1, but the samples never come that close.
- A NaN parameter `t` and signed zeros are not modelled: the divisor `posTo[0] - posFrom[0]` is taken to be the positive zero when it is zero.
- Spline.Sum: modelled only for a non-zero divisor; the code uses it with the divisor 1, and the other divisors belong to the kernel.
- Positions have two elements; a third (altitude) element is not modelled.
- Features hold only `properties` and `geometry`. A base feature's other members are not modelled; base features pass through the merge unchanged.
- The `fetch` of a URL and its promise chain are asynchronous I/O. `ResolveData` returns the URL to fetch, and `FetchResolved` stores the document; a document without `features`, a failed fetch and the race between overlapping fetches are not modelled.
- When `children` is an array, the code filters it and reads `props` of the resulting array, which is `undefined`; `const { data } = sourceComponent.props` then throws a `TypeError` on every render. The model starts from the single child's `data` and does not model this case.
- React plumbing is not modelled: `useState`/`useEffect` scheduling, when the effect runs, and what React does after the effect throws. The same goes for the JSX `<Source>`/`<Layer>` rendering, the `isArrow` filter and the icon layout. `SplineWrapper.SourceData` is the collection handed to `<Source>`.
- App's map setup, icon loading and JSX are UI and library calls. `getDarkColor` (src/functions/utilities.js) is random: its results are the parameter `colorOf`. App passes `hasArrow`/`iconImage` props that the wrapper does not read; the wrapper's behaviour is modelled for any `arrow` prop.
