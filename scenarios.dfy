/** Worked examples: concrete records and what the model gives for them. */
module Scenarios {
  import opened Options
  import opened Rows
  import opened Resolver
  import opened Aggregation
  import opened Viewport

  /** `{Lat: 32.3, Lng: -86.3}` with no mapping: one point, framed by a 0.1-degree box, padding 30. */
  lemma SinglePointInAlabama()
    ensures var row := map["Lat" := Num(32.3), "Lng" := Num(-86.3)];
      && Points([row], None) == [WeightedPoint(32.3, -86.3, 1)]
      && FitFor([WeightedPoint(32.3, -86.3, 1)]) == FitRequest([LatLng(32.2, -86.4), LatLng(32.4, -86.2)], 30, 30)
  {
    var row := map["Lat" := Num(32.3), "Lng" := Num(-86.3)];
    assert FirstSet(row, LatKeys, 0) == Some(0);
    assert FirstSet(row, LonKeys, 0) == Some(0);
  }

  /** `{lat: "10", lon: "10"}`: the strings are parsed to (10, 10), which the filter rejects. */
  lemma OutsideAlabama()
    ensures var row := map["lat" := Str("10", Some(10.0)), "lon" := Str("10", Some(10.0))];
      && Resolve(row, None) == Some(Coord(10.0, 10.0))
      && Points([row], None) == []
  {
    var row := map["lat" := Str("10", Some(10.0)), "lon" := Str("10", Some(10.0))];
    assert !IsSet(row, "Lat") && !IsSet(row, "LAT") && IsSet(row, "lat");
    assert FirstSet(row, LatKeys, 0) == Some(2);
    assert !IsSet(row, "Lng") && !IsSet(row, "LNG") && !IsSet(row, "lng") && !IsSet(row, "Lon") && !IsSet(row, "LON");
    assert FirstSet(row, LonKeys, 0) == Some(5);
  }

  /** `{foo: 1}`: no recognised key, no coordinate, no point. */
  lemma NoCoordinateKeys()
    ensures var row := map["foo" := Num(1.0)];
      Resolve(row, None) == None && Points([row], None) == []
  {
    NoRecognisedKeys(map["foo" := Num(1.0)], None);
  }

  /** Mapping `{lat: "x", lon: "y"}` on `{x: 33.5, y: -86.8, Lat: 999, Lon: 999}`: the decoys are ignored. */
  lemma MappingIgnoresDecoys()
    ensures var row := map["x" := Num(33.5), "y" := Num(-86.8), "Lat" := Num(999.0), "Lon" := Num(999.0)];
      Resolve(row, Some(ColumnMapping(Some("x"), Some("y")))) == Some(Coord(33.5, -86.8))
  {
  }

  /**
   * `{Lat: "abc", lat: 5, Lng: -86}`: a later latitude key parses, yet the scan
   * stops at `Lat`, which does not, so the row has no coordinate.
   */
  lemma FirstKeyDecides()
    ensures var row := map["Lat" := Str("abc", None), "lat" := Num(5.0), "Lng" := Num(-86.0)];
      && ParseFloat(row["lat"]) == Some(5.0)
      && Resolve(row, None) == None
  {
    var row := map["Lat" := Str("abc", None), "lat" := Num(5.0), "Lng" := Num(-86.0)];
    StopsAtFirstKey(row, None, LatKeys, 0);
  }
}
