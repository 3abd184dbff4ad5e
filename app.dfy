/** The segment derivation of App.js: consecutive locations are paired into
    segments whose endpoints are the locations' positions with their two
    elements swapped, from `[lat, lon]` to `[lon, lat]`. */
module App {
  import opened Js
  import opened GeoJson
  import Spline

  /** An entry of the locations list; only its `position` is read. */
  datatype Location = Location(position: Position)

  /** `[position[1], position[0]]`. */
  function Swap(p: Position): (r: Position)
    ensures r.x == p.y && r.y == p.x
  {
    Position(p.y, p.x)
  }

  /** The segments the effect builds, the `i`-th carrying the colour of the `i`-th
      `getDarkColor()` call. */
  function Segments(locations: seq<Location>, colorOf: nat -> string): (r: seq<Spline.Segment>)
  {
    var count := if |locations| > 0 then |locations| - 1 else 0;
    seq(count, i requires 0 <= i < count =>
      Spline.Segment(Swap(locations[i].position), Swap(locations[i + 1].position),
                     Some(map["color" := Text(colorOf(i))])))
  }

  /** The pairing loop of the first effect. `getDarkColor()` is random, so its
      results are the parameter `colorOf`. */
  method DeriveSegments(locations: seq<Location>, colorOf: nat -> string) returns (lines: seq<Spline.Segment>)
    ensures lines == Segments(locations, colorOf)
  {
    lines := [];
    var i := 0;
    while i < |locations| - 1
      invariant 0 <= i <= if |locations| > 0 then |locations| - 1 else 0
      invariant lines == Segments(locations, colorOf)[..i]
    {
      lines := lines + [Spline.Segment(
        Position(locations[i].position.y, locations[i].position.x),
        Position(locations[i + 1].position.y, locations[i + 1].position.x),
        Some(map["color" := Text(colorOf(i))]))];
      i := i + 1;
    }
  }

  /** One segment per consecutive pair of locations, from the swapped position of
      the first to the swapped position of the second, each with a `color`. */
  lemma SegmentsShape(locations: seq<Location>, colorOf: nat -> string)
    ensures var lines := Segments(locations, colorOf);
      && |lines| == (if |locations| > 0 then |locations| - 1 else 0)
      && forall i :: 0 <= i < |lines| ==>
        && lines[i].from == Swap(locations[i].position)
        && lines[i].to == Swap(locations[i + 1].position)
        && lines[i].properties.Some?
        && lines[i].properties.value.Keys == {"color"}
  {
  }

  /** Consecutive segments chain: each ends where the next begins. */
  lemma SegmentsChain(locations: seq<Location>, colorOf: nat -> string)
    ensures var lines := Segments(locations, colorOf);
      forall i :: 0 <= i < |lines| - 1 ==> lines[i].to == lines[i + 1].from
  {
  }

  /** The control chain `createSpline` builds from these segments is the list of
      all locations' swapped positions. */
  lemma {:induction false} ControlChainOfSegments(locations: seq<Location>, colorOf: nat -> string)
    requires |locations| >= 2
    ensures Spline.ControlChain(Segments(locations, colorOf))
         == seq(|locations|, i requires 0 <= i < |locations| => Swap(locations[i].position))
  {
    var lines := Segments(locations, colorOf);
    var chain := Spline.ControlChain(lines);
    forall i | 0 <= i < |locations|
      ensures chain[i] == Swap(locations[i].position)
    {
      if i == |lines| {
        assert chain[i] == lines[i - 1].to;
      }
    }
  }
}
