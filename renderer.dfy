/**
 * The display half of `renderHeat` (lines 66-99) over the module-level
 * `heatLayer` variable (line 16) and the map it draws on.
 */
module Renderer {
  import opened Options
  import opened Rows
  import opened Resolver
  import opened Aggregation
  import opened Viewport

  /** The heat layer's visual configuration (radius, blur, maxZoom, maxOpacity, gradient stops). */
  datatype HeatOptions = HeatOptions(radius: int, blur: int, maxZoom: int, maxOpacity: real, gradient: seq<(real, string)>)

  const HeatConfig: HeatOptions := HeatOptions(50, 30, 17, 0.8,
    [(0.0, "blue"), (0.2, "cyan"), (0.4, "lime"), (0.6, "yellow"), (0.8, "orange"), (1.0, "red")])

  /** A layer built by `L.heatLayer(points, options)`; it never changes once built. */
  class HeatLayer {
    const points: seq<WeightedPoint>
    const options: HeatOptions

    constructor (points: seq<WeightedPoint>, options: HeatOptions)
      ensures this.points == points && this.options == options
    {
      this.points := points;
      this.options := options;
    }
  }

  /** The map together with the plugin's `heatLayer` variable. */
  class HeatMap {
    /** The `heatLayer` variable: the last layer built, attached or not. */
    var heatLayer: HeatLayer?
    /** The heat layers currently attached to the map. */
    var attached: set<HeatLayer>
    /** The last `fitBounds` request issued. */
    var lastFit: Option<FitRequest>
    /** The request the viewport currently frames: a request that threw does not take effect. */
    var framed: Option<FitRequest>

    /** Just after start-up: `heatLayer` is undefined and no heat layer is attached. */
    constructor ()
      ensures heatLayer == null && attached == {} && lastFit == None && framed == None
    {
      heatLayer := null;
      attached := {};
      lastFit := None;
      framed := None;
    }

    /** At most one heat layer is shown, and only the one `heatLayer` names. */
    ghost predicate ShowsOnlyCurrent()
      reads this
    {
      forall l :: l in attached ==> l == heatLayer
    }

    /**
     * `renderHeat(records, mappings)`. Whether `map.removeLayer` and
     * `map.fitBounds` throw is given by `removeOk` and `fitOk`; a throw is
     * swallowed. The old layer is detached on every call, before the check
     * for an empty point list.
     */
    method RenderHeat(records: Option<seq<Row>>, mapping: Option<ColumnMapping>, removeOk: bool, fitOk: bool)
      returns (points: seq<WeightedPoint>)
      modifies this
      ensures points == if records.None? then [] else Points(records.value, mapping)
      ensures var kept := set l | l in old(attached) && !(removeOk && l == old(heatLayer));
        attached == if points == [] then kept else kept + {heatLayer}
      ensures points == [] ==> heatLayer == old(heatLayer) && lastFit == old(lastFit) && framed == old(framed)
      ensures points != [] ==>
        && heatLayer != null && fresh(heatLayer)
        && heatLayer.points == points && heatLayer.options == HeatConfig
        && lastFit == Some(FitFor(points))
        && framed == if fitOk then Some(FitFor(points)) else old(framed)
      ensures points == [] && removeOk && old(ShowsOnlyCurrent()) ==> attached == {}
      ensures removeOk && old(ShowsOnlyCurrent()) ==> ShowsOnlyCurrent()
    {
      points := CollectPoints(records, mapping);

      if heatLayer != null {
        if removeOk {
          attached := attached - {heatLayer};
        }
      }
      if |points| == 0 {
        return;
      }

      var layer := new HeatLayer(points, HeatConfig);
      attached := attached + {layer};
      heatLayer := layer;

      var request := FitFor(points);
      lastFit := Some(request);
      if fitOk {
        framed := Some(request);
      }
    }
  }

  /**
   * Rendering the same non-empty input twice, with the map calls succeeding,
   * leaves one layer on the map holding exactly that input's points, framed
   * by that input's fit request: the second render changes nothing visible.
   */
  method RenderTwice(m: HeatMap, records: seq<Row>, mapping: Option<ColumnMapping>)
    requires m.ShowsOnlyCurrent()
    requires Points(records, mapping) != []
    modifies m
    ensures m.ShowsOnlyCurrent() && m.heatLayer != null && m.heatLayer in m.attached
    ensures m.heatLayer.points == Points(records, mapping)
    ensures m.framed == Some(FitFor(Points(records, mapping)))
  {
    var first := m.RenderHeat(Some(records), mapping, true, true);
    var second := m.RenderHeat(Some(records), mapping, true, true);
  }
}
