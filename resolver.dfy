/**
 * Coordinate resolution for one row (`getLatLonFromRow`): an explicit column
 * mapping first, then a first-match scan over fixed candidate key names.
 */
module Resolver {
  import opened Options
  import opened Rows

  /** The host's optional column mapping; an unmapped column is `None`. */
  datatype ColumnMapping = ColumnMapping(lat: Option<string>, lon: Option<string>)

  /** The `[lat, lon]` pair the resolver returns. */
  datatype Coord = Coord(lat: real, lon: real)

  const LatKeys: seq<string> := ["Lat", "LAT", "lat", "Latitude", "LATITUDE", "latitude"]
  const LonKeys: seq<string> := ["Lng", "LNG", "lng", "Lon", "LON", "lon", "Longitude", "LONGITUDE", "longitude"]

  /** A mapping name is truthy when it is a non-empty string. */
  predicate Truthy(name: Option<string>) {
    name.Some? && name.value != ""
  }

  /** `mappings && mappings.lat && mappings.lon`: the explicit path is tried. */
  predicate UsesMapping(mapping: Option<ColumnMapping>) {
    mapping.Some? && Truthy(mapping.value.lat) && Truthy(mapping.value.lon)
  }

  /** Index `i` is the key the fallback loop stops at: set, and no earlier key is. */
  predicate IsFirstSet(row: Row, keys: seq<string>, i: int) {
    0 <= i < |keys| && IsSet(row, keys[i]) && forall j :: 0 <= j < i ==> !IsSet(row, keys[j])
  }

  /** The `for (const k of keys) { if (...) { ...; break; } }` search, from position `from`. */
  function FirstSet(row: Row, keys: seq<string>, from: nat): (r: Option<nat>)
    requires from <= |keys|
    requires forall j :: 0 <= j < from ==> !IsSet(row, keys[j])
    ensures r.Some? ==> IsFirstSet(row, keys, r.value)
    ensures r.None? ==> forall j :: 0 <= j < |keys| ==> !IsSet(row, keys[j])
    decreases |keys| - from
  {
    if from == |keys| then None
    else if IsSet(row, keys[from]) then Some(from)
    else FirstSet(row, keys, from + 1)
  }

  /** What the fallback loop leaves in `lat` (or `lon`): `None` for `null` or NaN. */
  function Scan(row: Row, keys: seq<string>): (r: Option<real>) {
    match FirstSet(row, keys, 0)
    case Some(i) => ParseFloat(row[keys[i]])
    case None => None
  }

  /** The explicit-mapping path (lines 20-26): both mapped values must already be finite numbers. */
  function MappedCoord(row: Row, mapping: Option<ColumnMapping>): (r: Option<Coord>) {
    if UsesMapping(mapping) then
      var lat := Get(row, mapping.value.lat.value);
      var lon := Get(row, mapping.value.lon.value);
      if IsFiniteNumber(lat) && IsFiniteNumber(lon) then Some(Coord(lat.x, lon.x)) else None
    else None
  }

  /** `getLatLonFromRow(row, mappings)`. */
  function Resolve(row: Row, mapping: Option<ColumnMapping>): (r: Option<Coord>) {
    if MappedCoord(row, mapping).Some? then MappedCoord(row, mapping)
    else
      var lat := Scan(row, LatKeys);
      var lon := Scan(row, LonKeys);
      if lat.Some? && lon.Some? then Some(Coord(lat.value, lon.value)) else None
  }

  /** At most one index is the first set key. */
  lemma FirstSetUnique(row: Row, keys: seq<string>, i: int, j: int)
    requires IsFirstSet(row, keys, i) && IsFirstSet(row, keys, j)
    ensures i == j
  {
  }

  /**
   * With both mapping names truthy and both mapped values finite numbers, the
   * result is exactly those values, whatever else the row holds (decoy
   * `Lat`/`Lon` keys included).
   */
  lemma MappingWins(row: Row, latName: string, lonName: string, lat: real, lon: real)
    requires latName != "" && lonName != ""
    requires Get(row, latName) == Num(lat) && Get(row, lonName) == Num(lon)
    ensures Resolve(row, Some(ColumnMapping(Some(latName), Some(lonName)))) == Some(Coord(lat, lon))
  {
  }

  /**
   * A mapped value that is not a finite number (a string, null, missing) is not
   * coerced: resolution continues exactly as if no mapping had been given.
   */
  lemma MappingFallsThrough(row: Row, mapping: Option<ColumnMapping>)
    requires UsesMapping(mapping)
    requires !IsFiniteNumber(Get(row, mapping.value.lat.value)) || !IsFiniteNumber(Get(row, mapping.value.lon.value))
    ensures Resolve(row, mapping) == Resolve(row, None)
  {
  }

  /**
   * The fallback result, stated without the search: when the mapping path does
   * not produce a pair, `c` is returned iff the first set latitude key and the
   * first set longitude key parse to `c.lat` and `c.lon`.
   */
  lemma {:induction false} FallbackResult(row: Row, mapping: Option<ColumnMapping>, c: Coord)
    requires MappedCoord(row, mapping).None?
    ensures Resolve(row, mapping) == Some(c) <==>
      exists i, j :: IsFirstSet(row, LatKeys, i) && IsFirstSet(row, LonKeys, j) &&
        ParseFloat(row[LatKeys[i]]) == Some(c.lat) && ParseFloat(row[LonKeys[j]]) == Some(c.lon)
  {
    var fi := FirstSet(row, LatKeys, 0);
    var fj := FirstSet(row, LonKeys, 0);
    if Resolve(row, mapping) == Some(c) {
      assert IsFirstSet(row, LatKeys, fi.value) && IsFirstSet(row, LonKeys, fj.value);
    }
    if exists i, j :: IsFirstSet(row, LatKeys, i) && IsFirstSet(row, LonKeys, j) &&
        ParseFloat(row[LatKeys[i]]) == Some(c.lat) && ParseFloat(row[LonKeys[j]]) == Some(c.lon)
    {
      var i, j :| IsFirstSet(row, LatKeys, i) && IsFirstSet(row, LonKeys, j) &&
        ParseFloat(row[LatKeys[i]]) == Some(c.lat) && ParseFloat(row[LonKeys[j]]) == Some(c.lon);
      FirstSetUnique(row, LatKeys, i, fi.value);
      FirstSetUnique(row, LonKeys, j, fj.value);
    }
  }

  /**
   * The scan stops at the first set key: if it does not parse to a finite
   * number, the result is `null` even when a later candidate key would parse.
   */
  lemma StopsAtFirstKey(row: Row, mapping: Option<ColumnMapping>, keys: seq<string>, i: nat)
    requires MappedCoord(row, mapping).None?
    requires keys == LatKeys || keys == LonKeys
    requires IsFirstSet(row, keys, i) && ParseFloat(row[keys[i]]).None?
    ensures Resolve(row, mapping).None?
  {
    FirstSetUnique(row, keys, i, FirstSet(row, keys, 0).value);
  }

  /**
   * The result is either `null` or a pair of finite numbers that came from the
   * row: the two mapped finite numbers, or the parses of the first set keys.
   */
  lemma ResolvedFromRow(row: Row, mapping: Option<ColumnMapping>)
    requires Resolve(row, mapping).Some?
    ensures var c := Resolve(row, mapping).value;
      || (UsesMapping(mapping) && Get(row, mapping.value.lat.value) == Num(c.lat) && Get(row, mapping.value.lon.value) == Num(c.lon))
      || exists i, j :: IsFirstSet(row, LatKeys, i) && IsFirstSet(row, LonKeys, j) &&
           ParseFloat(row[LatKeys[i]]) == Some(c.lat) && ParseFloat(row[LonKeys[j]]) == Some(c.lon)
  {
    if MappedCoord(row, mapping).None? {
      FallbackResult(row, mapping, Resolve(row, mapping).value);
    }
  }

  /** A row with no recognised key set (for latitude or for longitude) and no mapped pair yields `null`. */
  lemma NoRecognisedKeys(row: Row, mapping: Option<ColumnMapping>)
    requires MappedCoord(row, mapping).None?
    requires (forall k :: k in LatKeys ==> !IsSet(row, k)) || (forall k :: k in LonKeys ==> !IsSet(row, k))
    ensures Resolve(row, mapping) == None
  {
    var fi := FirstSet(row, LatKeys, 0);
    var fj := FirstSet(row, LonKeys, 0);
    if fi.Some? { assert LatKeys[fi.value] in LatKeys; }
    if fj.Some? { assert LonKeys[fj.value] in LonKeys; }
  }
}
