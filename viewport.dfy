/**
 * The viewport request `renderHeat` makes after attaching a layer
 * (lines 88-99), and the box Leaflet's `fitBounds` frames from it.
 */
module Viewport {
  import opened Aggregation

  datatype LatLng = LatLng(lat: real, lon: real)

  /** `map.fitBounds(corners, { padding: [padX, padY] })`. */
  datatype FitRequest = FitRequest(corners: seq<LatLng>, padX: int, padY: int)

  /** The box a list of corners spans: what `fitBounds` frames. */
  datatype Box = Box(south: real, north: real, west: real, east: real)

  /** Half-size of the box around a single point. */
  const SinglePad: real := 0.1
  /** Pixel padding of every fit request. */
  const FitPadding: int := 30

  predicate Contains(b: Box, lat: real, lon: real) {
    b.south <= lat <= b.north && b.west <= lon <= b.east
  }

  /** The fit request for a non-empty point list: a 0.1-degree box for one point, all points otherwise. */
  function FitFor(points: seq<WeightedPoint>): (r: FitRequest)
    requires points != []
  {
    if |points| == 1 then
      var p := points[0];
      FitRequest([LatLng(p.lat - SinglePad, p.lon - SinglePad), LatLng(p.lat + SinglePad, p.lon + SinglePad)], FitPadding, FitPadding)
    else
      FitRequest(seq(|points|, i requires 0 <= i < |points| => LatLng(points[i].lat, points[i].lon)), FitPadding, FitPadding)
  }

  /** The smallest box holding every corner; each side is attained by some corner. */
  function Extent(corners: seq<LatLng>): (b: Box)
    requires corners != []
    ensures forall i :: 0 <= i < |corners| ==> Contains(b, corners[i].lat, corners[i].lon)
    ensures exists i :: 0 <= i < |corners| && corners[i].lat == b.south
    ensures exists i :: 0 <= i < |corners| && corners[i].lat == b.north
    ensures exists i :: 0 <= i < |corners| && corners[i].lon == b.west
    ensures exists i :: 0 <= i < |corners| && corners[i].lon == b.east
  {
    var c := corners[|corners| - 1];
    if |corners| == 1 then Box(c.lat, c.lat, c.lon, c.lon)
    else
      var front := corners[..|corners| - 1];
      var b := Extent(front);
      assert forall i :: 0 <= i < |front| ==> front[i] == corners[i];
      Box(if c.lat < b.south then c.lat else b.south,
          if c.lat > b.north then c.lat else b.north,
          if c.lon < b.west then c.lon else b.west,
          if c.lon > b.east then c.lon else b.east)
  }

  /**
   * The fit request frames the data: every point lies inside the box it spans,
   * padding is 30 on both axes, and a single point sits at the centre of a box
   * 0.1 degrees out on each side.
   */
  lemma FitFramesPoints(points: seq<WeightedPoint>)
    requires points != []
    ensures FitFor(points).padX == FitPadding && FitFor(points).padY == FitPadding
    ensures FitFor(points).corners != []
    ensures forall p :: p in points ==> Contains(Extent(FitFor(points).corners), p.lat, p.lon)
    ensures |points| == 1 ==>
      var p := points[0];
      Extent(FitFor(points).corners) == Box(p.lat - SinglePad, p.lat + SinglePad, p.lon - SinglePad, p.lon + SinglePad)
  {
    var corners := FitFor(points).corners;
    if |points| > 1 {
      forall p | p in points ensures Contains(Extent(corners), p.lat, p.lon) {
        var i :| 0 <= i < |points| && points[i] == p;
        assert corners[i] == LatLng(p.lat, p.lon);
      }
    }
  }

  /**
   * For two or more points the framed box is the tight bounding box of the
   * points: each of its sides is the coordinate of some point.
   */
  lemma FitIsTight(points: seq<WeightedPoint>)
    requires |points| >= 2
    ensures var b := Extent(FitFor(points).corners);
      && (exists i :: 0 <= i < |points| && points[i].lat == b.south)
      && (exists i :: 0 <= i < |points| && points[i].lat == b.north)
      && (exists i :: 0 <= i < |points| && points[i].lon == b.west)
      && (exists i :: 0 <= i < |points| && points[i].lon == b.east)
  {
    var corners := FitFor(points).corners;
    var b := Extent(corners);
    assert |corners| == |points|;
    assert forall i :: 0 <= i < |points| ==> corners[i].lat == points[i].lat && corners[i].lon == points[i].lon;
    var s :| 0 <= s < |corners| && corners[s].lat == b.south;
    var n :| 0 <= n < |corners| && corners[n].lat == b.north;
    var w :| 0 <= w < |corners| && corners[w].lon == b.west;
    var e :| 0 <= e < |corners| && corners[e].lon == b.east;
    assert points[s].lat == b.south && points[n].lat == b.north && points[w].lon == b.west && points[e].lon == b.east;
  }
}
