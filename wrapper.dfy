/** The SplineWrapper component of components/SplineWrapper/index.js: it keeps the
    base feature collection of its child source, generates curves and arrows, and
    hands the merged collection to the rendering boundary. */
module Wrapper {
  import opened Js
  import opened GeoJson
  import Spline
  import LinedArrow

  /** The `position` of the `arrow` prop. `End` stands for "end" and for every
      other value, `undefined` included. */
  datatype ArrowPlacement = Start | Center | End

  /** The `arrow` prop: `{icon, position}`. */
  datatype ArrowConfig = ArrowConfig(icon: Option<string>, position: ArrowPlacement)

  /** The `data` prop of the child source: a URL, an object with a `features`
      member, `null`, or anything else (`undefined`, an object without
      `features`, ...). */
  datatype SourceData = UrlData(url: string) | CollectionData(collection: FeatureCollection) | NullData | OtherData

  /** `positionIndex` as the loop computes it, a JavaScript number: `len / 2` is
      not a whole number when `len` is odd. It is whole exactly when the placement
      is not "center" or the length is even, and it is then the integer index. */
  function PositionIndex(position: ArrowPlacement, len: nat): (r: real)
    ensures r.Floor as real == r <==> (position == Center ==> len % 2 == 0)
    ensures r.Floor as real == r ==> r.Floor == ArrowIndex(position, len)
  {
    match position
    case Start => 1.0
    case Center => HalfIsWhole(len); len as real / 2.0
    case End =>
      var last := len - 1;
      assert len as real - 1.0 == last as real && (last as real).Floor == last;
      len as real - 1.0
  }

  /** The index of the arrow's destination coordinate, where it is defined. */
  function ArrowIndex(position: ArrowPlacement, len: nat): (r: int)
    ensures len >= 2 ==> 1 <= r <= len - 1
  {
    match position
    case Start => 1
    case Center => len / 2
    case End => len - 1
  }

  /** `len / 2` is a whole number exactly when `len` is even. */
  lemma HalfIsWhole(len: nat)
    ensures (len as real / 2.0).Floor as real == len as real / 2.0 <==> len % 2 == 0
    ensures len % 2 == 0 ==> (len as real / 2.0).Floor == len / 2
  {
    var m := len / 2;
    var half := len as real / 2.0;
    if len % 2 == 0 {
      assert len == m + m;
      assert len as real == m as real + m as real;
      assert half == m as real;
    } else {
      assert len == m + m + 1;
      assert len as real == m as real + m as real + 1.0;
      assert half == m as real + 0.5;
      assert m as real <= half < m as real + 1.0;
      assert half.Floor == m;
    }
  }

  /** `coordinates[positionIndex - 1]` and `coordinates[positionIndex]`, or the
      TypeError that `createArrow` raises when one of them is undefined. */
  function PickPair(coordinates: seq<Position>, position: ArrowPlacement): (r: Result<(Position, Position)>)
    ensures r.Ok? <==> |coordinates| >= 2 && (position == Center ==> |coordinates| % 2 == 0)
    ensures r.Ok? ==>
      var i := ArrowIndex(position, |coordinates|);
      1 <= i < |coordinates| && r.value == (coordinates[i - 1], coordinates[i])
  {
    var idx := PositionIndex(position, |coordinates|);
    HalfIsWhole(|coordinates|);
    if idx.Floor as real == idx && 1 <= idx.Floor <= |coordinates| - 1 then
      Ok((coordinates[idx.Floor - 1], coordinates[idx.Floor]))
    else
      Err(TypeError)
  }

  /** Every line has the two coordinates the placement reads. */
  predicate Placeable(lines: seq<seq<Position>>, position: ArrowPlacement)
  {
    forall k :: 0 <= k < |lines| ==> PickPair(lines[k], position).Ok?
  }

  /** The arrow of one line. */
  function ArrowFor(coordinates: seq<Position>, position: ArrowPlacement, atanDegrees: LinedArrow.AtanDegrees): (r: Result<Feature>)
  {
    match PickPair(coordinates, position)
    case Ok((posFrom, posTo)) => Ok(LinedArrow.CreateArrow(posFrom, posTo, atanDegrees))
    case Err(e) => Err(e)
  }

  /** The outcomes of a loop that stops at the first throw: every value, in order,
      or the first error. */
  function Collect<T>(results: seq<Result<T>>): (r: Result<seq<T>>)
  {
    if results == [] then Ok([])
    else match results[0]
      case Err(e) => Err(e)
      case Ok(v) =>
        match Collect(results[1..])
        case Err(e) => Err(e)
        case Ok(rest) => Ok([v] + rest)
  }

  /** The loop completes exactly when no step throws, and then keeps every value,
      in order. */
  lemma {:induction false} CollectOk<T>(results: seq<Result<T>>)
    ensures Collect(results).Ok? <==> forall k :: 0 <= k < |results| ==> results[k].Ok?
    ensures Collect(results).Ok? ==>
      && |Collect(results).value| == |results|
      && forall k :: 0 <= k < |results| ==> Ok(Collect(results).value[k]) == results[k]
  {
    if results != [] {
      CollectOk(results[1..]);
      assert forall k :: 1 <= k < |results| ==> results[k] == results[1..][k - 1];
    }
  }

  /** Running the steps of `front` and then those of `back`, when `back` alone
      does not throw, completes exactly when `front` alone does, and gives the
      values of `front` followed by those of `back`. */
  lemma {:induction false} CollectAppend<T>(front: seq<Result<T>>, back: seq<Result<T>>)
    requires Collect(back).Ok?
    ensures Collect(front + back).Ok? <==> Collect(front).Ok?
    ensures Collect(front + back).Ok? ==> Collect(front + back).value == Collect(front).value + Collect(back).value
  {
    if front == [] {
      assert front + back == back;
    } else {
      assert (front + back)[0] == front[0];
      assert (front + back)[1..] == front[1..] + back;
      CollectAppend(front[1..], back);
      if Collect(front + back).Ok? {
        var v := front[0].value;
        var rest := Collect(front[1..]).value;
        var b := Collect(back).value;
        assert [v] + (rest + b) == ([v] + rest) + b;
      }
    }
  }

  /** The outcome of `createArrow` for each line, in order. */
  function ArrowResults(lines: seq<seq<Position>>, position: ArrowPlacement, atanDegrees: LinedArrow.AtanDegrees): (r: seq<Result<Feature>>)
  {
    seq(|lines|, k requires 0 <= k < |lines| => ArrowFor(lines[k], position, atanDegrees))
  }

  /** The arrows of the lines, in order; the first line without the two
      coordinates throws. */
  function Arrows(lines: seq<seq<Position>>, position: ArrowPlacement, atanDegrees: LinedArrow.AtanDegrees): (r: Result<seq<Feature>>)
  {
    Collect(ArrowResults(lines, position, atanDegrees))
  }

  /** The loop succeeds exactly when every line has the two coordinates, and then
      gives one arrow per line, in line order. */
  lemma ArrowsOk(lines: seq<seq<Position>>, position: ArrowPlacement, atanDegrees: LinedArrow.AtanDegrees)
    ensures Arrows(lines, position, atanDegrees).Ok? <==> Placeable(lines, position)
    ensures Arrows(lines, position, atanDegrees).Ok? ==>
      var arrows := Arrows(lines, position, atanDegrees).value;
      && |arrows| == |lines|
      && forall k :: 0 <= k < |lines| ==> Ok(arrows[k]) == ArrowFor(lines[k], position, atanDegrees)
  {
    var results := ArrowResults(lines, position, atanDegrees);
    CollectOk(results);
    assert forall k :: 0 <= k < |lines| ==> (results[k].Ok? <==> PickPair(lines[k], position).Ok?);
  }

  /** The arrow loop: one `createArrow` per line, pushed in order. */
  method CreateArrows(lines: seq<seq<Position>>, position: ArrowPlacement, atanDegrees: LinedArrow.AtanDegrees)
    returns (r: Result<seq<Feature>>)
    ensures r == Arrows(lines, position, atanDegrees)
  {
    var arrowFeatures := [];
    for i := 0 to |lines|
      invariant |arrowFeatures| == i
      invariant forall k :: 0 <= k < i ==> PickPair(lines[k], position).Ok?
      invariant forall k :: 0 <= k < i ==> Ok(arrowFeatures[k]) == ArrowFor(lines[k], position, atanDegrees)
    {
      var coordinates := lines[i];
      var positionIndex := |coordinates| as real - 1.0;
      if position == Start {
        positionIndex := 1.0;
      } else if position == Center {
        positionIndex := |coordinates| as real / 2.0;
      }
      assert positionIndex == PositionIndex(position, |coordinates|);
      if !(positionIndex.Floor as real == positionIndex && 1 <= positionIndex.Floor <= |coordinates| - 1) {
        assert PickPair(lines[i], position).Err?;
        ArrowsOk(lines, position, atanDegrees);
        return Err(TypeError);
      }
      var k := positionIndex.Floor;
      assert PickPair(lines[i], position) == Ok((coordinates[k - 1], coordinates[k]));
      arrowFeatures := arrowFeatures + [LinedArrow.CreateArrow(coordinates[k - 1], coordinates[k], atanDegrees)];
    }
    ArrowsOk(lines, position, atanDegrees);
    assert Arrows(lines, position, atanDegrees).value == arrowFeatures by {
      forall k | 0 <= k < |lines|
        ensures Arrows(lines, position, atanDegrees).value[k] == arrowFeatures[k]
      {
        assert Ok(Arrows(lines, position, atanDegrees).value[k]) == ArrowFor(lines[k], position, atanDegrees);
      }
    }
    r := Ok(arrowFeatures);
  }

  /** Every generated curve gets its arrow, whatever the placement: each has an
      even number, 100, of coordinates. */
  lemma CurvesGetArrows(lines: seq<Spline.Segment>, kernel: Spline.Kernel, quantize: Spline.Sampler,
                        position: ArrowPlacement, atanDegrees: LinedArrow.AtanDegrees)
    requires |lines| > 0 && Spline.ReturnsRequestedCount(quantize)
    ensures var curves := LineCoordinates(Spline.CurveFeatures(lines, kernel, quantize));
      && |curves| == |lines|
      && Arrows(curves, position, atanDegrees).Ok?
      && |Arrows(curves, position, atanDegrees).value| == |lines|
  {
    var features := Spline.CurveFeatures(lines, kernel, quantize);
    Spline.CurveFeaturesShape(lines, kernel, quantize);
    LineCoordinatesOfLines(features);
    var curves := LineCoordinates(features);
    forall k | 0 <= k < |curves|
      ensures |curves[k]| == 100
    {
      assert curves[k] == features[k].geometry.coordinates;
    }
    EvenLinesPlaceable(curves, position);
    ArrowsOk(curves, position, atanDegrees);
  }

  /** Lines of 100 coordinates have the two coordinates every placement reads. */
  lemma EvenLinesPlaceable(lines: seq<seq<Position>>, position: ArrowPlacement)
    requires forall k :: 0 <= k < |lines| ==> |lines[k]| == 100
    ensures Placeable(lines, position)
  {
  }

  /** The curves of the effect: `createSpline(lines)` when there are lines, none otherwise. */
  function GeneratedCurves(lines: seq<Spline.Segment>, kernel: Spline.Kernel, quantize: Spline.Sampler): (r: seq<Feature>)
    requires Spline.ReturnsRequestedCount(quantize)
    ensures |r| == |lines|
    ensures forall k :: 0 <= k < |r| ==> r[k].geometry.LineStringGeometry?
  {
    if |lines| > 0 then
      Spline.CurveFeaturesShape(lines, kernel, quantize);
      Spline.CurveFeatures(lines, kernel, quantize)
    else
      []
  }

  /** A feature whose geometry is `null`. */
  predicate HasNullGeometry(features: seq<Feature>)
  {
    exists k :: 0 <= k < |features| && features[k].geometry.NullGeometry?
  }

  /** `features.filter((feature) => feature.geometry.type === "LineString")`, read
      through `geometry.coordinates`: reading the `type` of a `null` geometry
      throws, otherwise the `LineString`s are kept in order. */
  function ExistingLines(features: seq<Feature>): (r: Result<seq<seq<Position>>>)
    ensures r.Err? <==> HasNullGeometry(features)
    ensures r.Err? ==> r.error == TypeError
    ensures r.Ok? ==> r.value == LineCoordinates(features)
  {
    if features == [] then Ok([])
    else if features[0].geometry.NullGeometry? then Err(TypeError)
    else
      match ExistingLines(features[1..])
      case Err(e) => Err(e)
      case Ok(rest) =>
        Ok(if features[0].geometry.LineStringGeometry? then [features[0].geometry.coordinates] + rest else rest)
  }

  /** The arrows of the effect: only with an `arrow` prop and a base collection, for
      the base's `LineString` features followed by the generated curves. The code
      spreads the curves unfiltered; `LineCoordinates` reads them the same way
      because every generated curve is a `LineString` (`GeneratedCurves`). */
  function EffectArrows(base: Option<FeatureCollection>, curves: seq<Feature>, arrow: Option<ArrowConfig>,
                        atanDegrees: LinedArrow.AtanDegrees): (r: Result<seq<Feature>>)
    ensures arrow.None? || base.None? ==> r == Ok([])
    ensures arrow.Some? && base.Some? && HasNullGeometry(base.value.features) ==> r == Err(TypeError)
  {
    if arrow.Some? && base.Some? then
      match ExistingLines(base.value.features)
      case Err(e) => Err(e)
      case Ok(existing) => Arrows(existing + LineCoordinates(curves), arrow.value.position, atanDegrees)
    else
      Ok([])
  }

  /** The loop over `front` followed by lines that all get their arrows completes
      exactly when the loop over `front` does, and then gives the arrows of
      `front` followed by those of `back`. */
  lemma ArrowsAppend(front: seq<seq<Position>>, back: seq<seq<Position>>, position: ArrowPlacement,
                     atanDegrees: LinedArrow.AtanDegrees)
    requires Arrows(back, position, atanDegrees).Ok?
    ensures Arrows(front + back, position, atanDegrees).Ok? <==> Arrows(front, position, atanDegrees).Ok?
    ensures Arrows(front + back, position, atanDegrees).Ok? ==>
      Arrows(front + back, position, atanDegrees).value
        == Arrows(front, position, atanDegrees).value + Arrows(back, position, atanDegrees).value
  {
    var f, b := ArrowResults(front, position, atanDegrees), ArrowResults(back, position, atanDegrees);
    assert ArrowResults(front + back, position, atanDegrees) == f + b;
    CollectAppend(f, b);
  }

  /** With an `arrow` prop and a base collection, the effect completes exactly when
      no base feature has a `null` geometry and every `LineString` of the base has
      the coordinates the placement reads, and then it places one arrow per base
      line and one per segment: the base's arrows first, in base order, then the
      curves' arrows, in segment order. */
  lemma EffectArrowsOk(base: FeatureCollection, lines: seq<Spline.Segment>, kernel: Spline.Kernel,
                       quantize: Spline.Sampler, arrow: ArrowConfig, atanDegrees: LinedArrow.AtanDegrees)
    requires Spline.ReturnsRequestedCount(quantize)
    ensures EffectArrows(Some(base), GeneratedCurves(lines, kernel, quantize), Some(arrow), atanDegrees).Ok?
      <==> !HasNullGeometry(base.features) && Placeable(LineCoordinates(base.features), arrow.position)
    ensures EffectArrows(Some(base), GeneratedCurves(lines, kernel, quantize), Some(arrow), atanDegrees).Ok? ==>
      |EffectArrows(Some(base), GeneratedCurves(lines, kernel, quantize), Some(arrow), atanDegrees).value|
        == |LineCoordinates(base.features)| + |lines|
    ensures EffectArrows(Some(base), GeneratedCurves(lines, kernel, quantize), Some(arrow), atanDegrees).Ok? ==>
      && Arrows(LineCoordinates(base.features), arrow.position, atanDegrees).Ok?
      && Arrows(LineCoordinates(GeneratedCurves(lines, kernel, quantize)), arrow.position, atanDegrees).Ok?
      && EffectArrows(Some(base), GeneratedCurves(lines, kernel, quantize), Some(arrow), atanDegrees).value
         == Arrows(LineCoordinates(base.features), arrow.position, atanDegrees).value
          + Arrows(LineCoordinates(GeneratedCurves(lines, kernel, quantize)), arrow.position, atanDegrees).value
  {
    var position := arrow.position;
    var baseLines := LineCoordinates(base.features);
    var curves := GeneratedCurves(lines, kernel, quantize);
    var curveLines := LineCoordinates(curves);
    if HasNullGeometry(base.features) {
      assert EffectArrows(Some(base), curves, Some(arrow), atanDegrees).Err?;
      return;
    }
    assert |curveLines| == |lines| && Placeable(curveLines, position) by {
      if |lines| > 0 {
        CurvesGetArrows(lines, kernel, quantize, position, atanDegrees);
      }
      ArrowsOk(curveLines, position, atanDegrees);
    }
    assert ExistingLines(base.features) == Ok(baseLines);
    assert EffectArrows(Some(base), curves, Some(arrow), atanDegrees) == Arrows(baseLines + curveLines, position, atanDegrees);
    ArrowsOk(curveLines, position, atanDegrees);
    ArrowsOk(baseLines, position, atanDegrees);
    ArrowsAppend(baseLines, curveLines, position, atanDegrees);
  }

  /** `getFeatureCollection(features)`: the base collection with the generated
      features appended, or a fresh collection of them when there is no base. */
  function GetFeatureCollection(base: Option<FeatureCollection>, generated: seq<Feature>): (r: FeatureCollection)
    ensures base.Some? ==> r.members == base.value.members
    ensures base.Some? ==> |r.features| == |base.value.features| + |generated|
    ensures base.Some? ==> r.features[..|base.value.features|] == base.value.features
    ensures base.Some? ==> r.features[|base.value.features|..] == generated
    ensures base.None? ==> r.members == map["type" := Text("FeatureCollection")] && r.features == generated
  {
    match base
    case Some(collection) => collection.(features := collection.features + generated)
    case None => FeatureCollection(map["type" := Text("FeatureCollection")], generated)
  }

  /** Merging nothing into a base gives the base back. */
  lemma MergeNothing(base: FeatureCollection)
    ensures GetFeatureCollection(Some(base), []) == base
  {
    assert base.features + [] == base.features;
  }

  /** Merging twice is merging the concatenation once. */
  lemma MergeTwice(base: Option<FeatureCollection>, first: seq<Feature>, second: seq<Feature>)
    ensures GetFeatureCollection(Some(GetFeatureCollection(base, first)), second)
         == GetFeatureCollection(base, first + second)
  {
    if base.Some? {
      assert base.value.features + first + second == base.value.features + (first + second);
    }
  }

  /** The component's state: the cached base collection and the generated features. */
  class SplineWrapper {
    var featureCollection: Option<FeatureCollection>
    var features: seq<Feature>

    /** `useState()` and `useState([])`. */
    constructor ()
      ensures featureCollection == None && features == []
    {
      featureCollection := None;
      features := [];
    }

    /** The render-time handling of the child's `data` while no collection is
        cached: a URL is handed to `fetch` (returned here), an object with
        `features` becomes the base, `null` throws, anything else is ignored. */
    method ResolveData(data: SourceData) returns (outcome: Outcome, fetchUrl: Option<string>)
      modifies this
      ensures features == old(features)
      ensures old(featureCollection).Some? ==>
        featureCollection == old(featureCollection) && outcome == Normal && fetchUrl == None
      ensures old(featureCollection).None? ==>
        && (featureCollection == if data.CollectionData? then Some(data.collection) else None)
        && (fetchUrl == if data.UrlData? then Some(data.url) else None)
        && (outcome == if data.NullData? then Threw(TypeError) else Normal)
    {
      outcome, fetchUrl := Normal, None;
      if featureCollection.None? {
        match data
        case UrlData(url) =>
          fetchUrl := Some(url);
        case CollectionData(collection) =>
          featureCollection := Some(collection);
        case NullData =>
          outcome := Threw(TypeError);
        case OtherData =>
      }
    }

    /** The fetch started for a URL resolves: its document becomes the base. */
    method FetchResolved(collection: FeatureCollection)
      modifies this
      ensures featureCollection == Some(collection) && features == old(features)
    {
      featureCollection := Some(collection);
    }

    /** The effect run when the base, `lines` or `arrow` change: the features are
        reset, then become the curves followed by the arrows; a line whose arrow
        coordinates are undefined throws and leaves them reset. */
    method Recompute(lines: seq<Spline.Segment>, arrow: Option<ArrowConfig>, kernel: Spline.Kernel,
                     quantize: Spline.Sampler, atanDegrees: LinedArrow.AtanDegrees) returns (outcome: Outcome)
      requires Spline.ReturnsRequestedCount(quantize)
      modifies this
      ensures featureCollection == old(featureCollection)
      ensures var curves := GeneratedCurves(lines, kernel, quantize);
        match EffectArrows(featureCollection, curves, arrow, atanDegrees)
        case Ok(arrows) => outcome == Normal && features == curves + arrows
        case Err(e) => outcome == Threw(e) && features == []
    {
      features := [];
      ghost var curves := GeneratedCurves(lines, kernel, quantize);
      ghost var effect := EffectArrows(featureCollection, curves, arrow, atanDegrees);
      var splineLineFeatures := [];
      var arrowFeatures := [];
      if |lines| > 0 {
        splineLineFeatures := Spline.CreateSpline(lines, kernel, quantize);
      }
      assert splineLineFeatures == curves;
      if arrow.Some? && featureCollection.Some? {
        var existingLines := ExistingLines(featureCollection.value.features);
        if existingLines.Err? {
          assert effect == Err(existingLines.error);
          return Threw(existingLines.error);
        }
        var r := CreateArrows(existingLines.value + LineCoordinates(splineLineFeatures), arrow.value.position, atanDegrees);
        assert effect == r;
        match r
        case Err(e) =>
          return Threw(e);
        case Ok(placed) =>
          arrowFeatures := placed;
      } else {
        assert effect == Ok([]);
      }
      assert effect == Ok(arrowFeatures);
      features := features + splineLineFeatures + arrowFeatures;
      outcome := Normal;
    }

    /** The `data` handed to the rendered source: the base with the generated
        features after its own, or a collection of the generated features alone. */
    function SourceData(): (r: FeatureCollection)
      reads this
      ensures featureCollection.Some? ==>
        r.members == featureCollection.value.members && r.features == featureCollection.value.features + features
      ensures featureCollection.None? ==>
        r.members == map["type" := Text("FeatureCollection")] && r.features == features
    {
      GetFeatureCollection(featureCollection, features)
    }
  }
}
