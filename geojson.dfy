/** The GeoJSON shapes (RFC 7946) the wrapper reads and produces. */
module GeoJson {

  /** A position (RFC 7946 section 3.1.1) of two elements: `x` is element 0 and
      `y` is element 1. */
  datatype Position = Position(x: real, y: real)

  /** A member value of a property bag or of a collection. `Other` stands for any
      JSON value the modelled code never looks into. */
  datatype Value = Number(number: real) | NotANumber | Text(text: string) | Other(id: int)

  type Properties = map<string, Value>

  /** The name of a geometry type other than the two the code tells apart. */
  type OtherTypeName = s: string | s != "Point" && s != "LineString" witness "Polygon"

  /** A geometry (RFC 7946 section 3.1). The code distinguishes only `Point` and
      `LineString`; `OtherGeometry` is every other geometry type, by its name, and
      `NullGeometry` is the `null` geometry of an unlocated feature (RFC 7946
      section 3.2), whose `type` cannot be read. */
  datatype Geometry =
    | PointGeometry(position: Position)
    | LineStringGeometry(coordinates: seq<Position>)
    | OtherGeometry(typeName: OtherTypeName)
    | NullGeometry

  /** A feature object (RFC 7946 section 3.2), whose "type" member is "Feature". */
  datatype Feature = Feature(properties: Properties, geometry: Geometry)

  /** The members of a collection other than "features", by name. */
  type Members = m: map<string, Value> | "features" !in m witness map[]

  /** A feature collection (RFC 7946 section 3.3): its "features" member, and every
      other member (such as "type" or "bbox") by name. */
  datatype FeatureCollection = FeatureCollection(members: Members, features: seq<Feature>)

  /** The coordinates of the features whose geometry is a `LineString`, in order:
      `features.filter(f => f.geometry.type === "LineString")` read through
      `geometry.coordinates`. */
  function LineCoordinates(features: seq<Feature>): (r: seq<seq<Position>>)
    ensures |r| <= |features|
    ensures (forall k :: 0 <= k < |features| ==> features[k].geometry.LineStringGeometry?) ==> |r| == |features|
    ensures forall c :: c in r <==> exists k :: 0 <= k < |features| && features[k].geometry == LineStringGeometry(c)
  {
    if features == [] then []
    else if features[0].geometry.LineStringGeometry? then
      [features[0].geometry.coordinates] + LineCoordinates(features[1..])
    else
      LineCoordinates(features[1..])
  }

  /** A single feature is kept, as its coordinates, exactly when it is a
      `LineString`; with `LineCoordinatesAppend` this fixes the filter on every list. */
  lemma LineCoordinatesOfOne(f: Feature)
    ensures LineCoordinates([f]) == if f.geometry.LineStringGeometry? then [f.geometry.coordinates] else []
  {
    assert [f][1..] == [];
  }

  /** Filtering distributes over concatenation: the lines of `a` come before those of `b`. */
  lemma {:induction false} LineCoordinatesAppend(a: seq<Feature>, b: seq<Feature>)
    ensures LineCoordinates(a + b) == LineCoordinates(a) + LineCoordinates(b)
  {
    if a == [] {
      assert a + b == b;
    } else {
      assert (a + b)[0] == a[0];
      assert (a + b)[1..] == a[1..] + b;
      LineCoordinatesAppend(a[1..], b);
    }
  }

  /** When every feature is a `LineString`, the filter keeps all of them, in order. */
  lemma {:induction false} LineCoordinatesOfLines(features: seq<Feature>)
    requires forall k :: 0 <= k < |features| ==> features[k].geometry.LineStringGeometry?
    ensures |LineCoordinates(features)| == |features|
    ensures forall k :: 0 <= k < |features| ==> LineCoordinates(features)[k] == features[k].geometry.coordinates
  {
    if features != [] {
      LineCoordinatesOfLines(features[1..]);
    }
  }
}
