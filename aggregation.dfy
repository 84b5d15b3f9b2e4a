/**
 * The point-building half of `renderHeat`: resolve every record, keep those
 * inside the Alabama box, and emit each as a weight-1 heat point, in order.
 */
module Aggregation {
  import opened Options
  import opened Rows
  import opened Resolver

  /** The Alabama bounds (declared identically twice in the plugin). */
  const MinLat: real := 30.18
  const MaxLat: real := 35.00
  const MinLon: real := -88.47
  const MaxLon: real := -84.88

  /** `[lat, lon, weight]` as handed to the heat layer. */
  datatype WeightedPoint = WeightedPoint(lat: real, lon: real, weight: int)

  /** The region filter: all four bounds inclusive. */
  predicate InAlabama(c: Coord) {
    MinLat <= c.lat <= MaxLat && MinLon <= c.lon <= MaxLon
  }

  /** What one record contributes: its point when it resolves and passes the filter. */
  function PointOf(row: Row, mapping: Option<ColumnMapping>): (r: Option<WeightedPoint>) {
    match Resolve(row, mapping)
    case Some(c) => if InAlabama(c) then Some(WeightedPoint(c.lat, c.lon, 1)) else None
    case None => None
  }

  /** The points the loop has pushed after visiting `rows`, in order. */
  function Points(rows: seq<Row>, mapping: Option<ColumnMapping>): (r: seq<WeightedPoint>) {
    if rows == [] then []
    else
      var last := rows[|rows| - 1];
      Points(rows[..|rows| - 1], mapping) + (if PointOf(last, mapping).Some? then [PointOf(last, mapping).value] else [])
  }

  /** The indices of the records that contribute a point, in increasing order. */
  ghost function KeptIndices(rows: seq<Row>, mapping: Option<ColumnMapping>): (r: seq<nat>) {
    if rows == [] then []
    else
      var n := |rows| - 1;
      KeptIndices(rows[..n], mapping) + (if PointOf(rows[n], mapping).Some? then [n] else [])
  }

  /**
   * The aggregation loop of `renderHeat` (lines 46-64): absent or empty records
   * give no points; otherwise each record is resolved, filtered and pushed.
   */
  method CollectPoints(records: Option<seq<Row>>, mapping: Option<ColumnMapping>) returns (points: seq<WeightedPoint>)
    ensures records.None? || records.value == [] ==> points == []
    ensures records.Some? ==> points == Points(records.value, mapping)
  {
    points := [];
    if records.None? || |records.value| == 0 {
      return;
    }
    var rows := records.value;
    var i := 0;
    while i < |rows|
      invariant 0 <= i <= |rows|
      invariant points == Points(rows[..i], mapping)
    {
      var pair := Resolve(rows[i], mapping);
      if pair.Some? {
        var lat := pair.value.lat;
        var lon := pair.value.lon;
        if lat >= MinLat && lat <= MaxLat && lon >= MinLon && lon <= MaxLon {
          points := points + [WeightedPoint(lat, lon, 1)];
        }
      }
      assert rows[..i + 1][..i] == rows[..i];
      i := i + 1;
    }
    assert rows[..i] == rows;
  }

  /**
   * `PointOf`'s definition restated in iff form, as a named statement of the
   * filter: a resolved pair is kept iff it lies in the box, boundaries
   * included, and the point has weight 1.
   */
  lemma PointOfFilter(row: Row, mapping: Option<ColumnMapping>)
    ensures PointOf(row, mapping).Some? <==> Resolve(row, mapping).Some? && InAlabama(Resolve(row, mapping).value)
    ensures PointOf(row, mapping).Some? ==>
      PointOf(row, mapping).value == WeightedPoint(Resolve(row, mapping).value.lat, Resolve(row, mapping).value.lon, 1)
  {
  }

  /** The four corners of the box are themselves accepted. */
  lemma BoundsInclusive()
    ensures InAlabama(Coord(MinLat, MinLon)) && InAlabama(Coord(MinLat, MaxLon))
    ensures InAlabama(Coord(MaxLat, MinLon)) && InAlabama(Coord(MaxLat, MaxLon))
  {
  }

  /** No more points than records. */
  lemma {:induction false} PointsBounded(rows: seq<Row>, mapping: Option<ColumnMapping>)
    ensures |Points(rows, mapping)| <= |rows|
  {
    if rows != [] {
      PointsBounded(rows[..|rows| - 1], mapping);
    }
  }

  /** Every point lies in the box and has weight 1. */
  lemma {:induction false} PointsInRegion(rows: seq<Row>, mapping: Option<ColumnMapping>)
    ensures forall p :: p in Points(rows, mapping) ==>
      p.weight == 1 && InAlabama(Coord(p.lat, p.lon))
  {
    if rows != [] {
      PointsInRegion(rows[..|rows| - 1], mapping);
    }
  }

  /** The j-th point comes from record `KeptIndices[j]`. */
  lemma {:induction false} KeptIndicesMatch(rows: seq<Row>, mapping: Option<ColumnMapping>)
    ensures var idx, pts := KeptIndices(rows, mapping), Points(rows, mapping);
      && |idx| == |pts|
      && forall j :: 0 <= j < |idx| ==> idx[j] < |rows| && PointOf(rows[idx[j]], mapping) == Some(pts[j])
  {
    if rows != [] {
      var n := |rows| - 1;
      KeptIndicesMatch(rows[..n], mapping);
      var idx0 := KeptIndices(rows[..n], mapping);
      assert forall j :: 0 <= j < |idx0| ==> rows[..n][idx0[j]] == rows[idx0[j]];
    }
  }

  /** `KeptIndices` increases and stays below the number of records. */
  lemma {:induction false} KeptIndicesIncrease(rows: seq<Row>, mapping: Option<ColumnMapping>)
    ensures forall j :: 0 <= j < |KeptIndices(rows, mapping)| ==> KeptIndices(rows, mapping)[j] < |rows|
    ensures forall j, k :: 0 <= j < k < |KeptIndices(rows, mapping)| ==>
      KeptIndices(rows, mapping)[j] < KeptIndices(rows, mapping)[k]
  {
    if rows != [] {
      var n := |rows| - 1;
      var front := rows[..n];
      KeptIndicesIncrease(front, mapping);
      var idx0 := KeptIndices(front, mapping);
      var idx := KeptIndices(rows, mapping);
      assert idx == idx0 + if PointOf(rows[n], mapping).Some? then [n] else [];
      forall j | 0 <= j < |idx| ensures idx[j] < |rows| {
        if j < |idx0| { assert idx[j] == idx0[j]; }
      }
      forall j, k | 0 <= j < k < |idx| ensures idx[j] < idx[k] {
        if k < |idx0| { assert idx[j] == idx0[j] && idx[k] == idx0[k]; }
        else { assert idx[j] == idx0[j] && idx0[j] < n; }
      }
    }
  }

  /** Every record that yields a point is among `KeptIndices`. */
  lemma {:induction false} KeptIndicesComplete(rows: seq<Row>, mapping: Option<ColumnMapping>)
    ensures forall i :: 0 <= i < |rows| && PointOf(rows[i], mapping).Some? ==> i in KeptIndices(rows, mapping)
  {
    if rows != [] {
      var n := |rows| - 1;
      KeptIndicesComplete(rows[..n], mapping);
      assert forall i :: 0 <= i < n ==> rows[..n][i] == rows[i];
    }
  }

  /**
   * The points are the in-order subsequence of contributing records: the j-th
   * point comes from record `KeptIndices[j]`, the indices increase, and every
   * record that resolves inside the box is among them.
   */
  lemma PointsOrderedSubsequence(rows: seq<Row>, mapping: Option<ColumnMapping>)
    ensures var idx, pts := KeptIndices(rows, mapping), Points(rows, mapping);
      && |idx| == |pts|
      && (forall j :: 0 <= j < |idx| ==> idx[j] < |rows| && PointOf(rows[idx[j]], mapping) == Some(pts[j]))
      && (forall j, k :: 0 <= j < k < |idx| ==> idx[j] < idx[k])
      && (forall i :: 0 <= i < |rows| && PointOf(rows[i], mapping).Some? ==> i in idx)
  {
    KeptIndicesMatch(rows, mapping);
    KeptIndicesIncrease(rows, mapping);
    KeptIndicesComplete(rows, mapping);
  }
}
