# Grist heat-map plugin: a Dafny model of its record-to-heat-point pipeline

The plugin receives record batches from a Grist table and draws them as a heat
overlay on a Leaflet map of Alabama. This project models the part with real
decision logic, all of it in `grist-heatmap-plugin.js`:

- `getLatLonFromRow` (module `Resolver`). First it tries the explicit column
  mapping, which is accepted only when both mapped values are already finite
  numbers. Otherwise it scans two fixed, ordered candidate-key lists and
  `parseFloat`s the first key that is present and neither null nor undefined.
- The aggregation loop of `renderHeat` (module `Aggregation`). It keeps
  resolved pairs inside the inclusive Alabama box as `[lat, lon, 1]`, in
  record order.
- The display logic of `renderHeat` (module `Renderer`, with the fit request
  in `Viewport`). The `heatLayer` variable and the map's attached heat layers
  are the fields of class `HeatMap`. Every call detaches the current layer.
  A non-empty point list gets a fresh layer and a `fitBounds` request.

Records are `map<string, Value>`, where `Value` is a tagged JavaScript value.
Coordinates are reals. `parseFloat` is not re-implemented: every string or
other non-number value carries the result `parseFloat` gives on it. Whether
`map.removeLayer` or `map.fitBounds` throws is an input of `RenderHeat`
(`removeOk`, `fitOk`). The plugin swallows both failures.

Two behaviours of the code worth knowing:

- Empty renders still detach. Line 66 removes the layer before the emptiness
  check at line 67, so after an empty render no heat layer is shown when the
  removal succeeds and only the current layer was shown before, yet
  `heatLayer` still names the detached layer (`RenderHeat`).
- A row resolves only if the first set latitude key and the first set
  longitude key both parse. The scan stops at the first set key even when it
  does not parse (`StopsAtFirstKey`, `FirstKeyDecides`).

Also, when `removeLayer` throws, the old layer stays attached next to the new
one. "At most one heat layer shown" (`ShowsOnlyCurrent`) is guaranteed only
when removal succeeds.

## Model

| member | source | states |
|---|---|---|
| `Rows.ParseFloat` | grist-heatmap-plugin.js:31-32 | `parseFloat` of a finite number is that number; of null, undefined, NaN or an infinity it is non-finite |
| `Resolver.Resolve` | grist-heatmap-plugin.js:19-35 | `getLatLonFromRow` itself: a definition with no contract of its own; its properties are stated by `MappingWins`, `MappingFallsThrough`, `FallbackResult`, `StopsAtFirstKey`, `ResolvedFromRow` and `NoRecognisedKeys` |
| `Resolver.MappedCoord` | grist-heatmap-plugin.js:20-26 | the explicit-mapping path: a definition with no contract of its own; `MappingWins` and `MappingFallsThrough` state what it gives |
| `Resolver.Scan` | grist-heatmap-plugin.js:28-32 | the fallback key scan and its `parseFloat`: a definition with no contract of its own, built on `FirstSet`; `FallbackResult` and `StopsAtFirstKey` state what it gives |
| `Resolver.FirstSet` | grist-heatmap-plugin.js:31-32 | the candidate-key loop returns the first index whose key is present with a value other than null or undefined; if it returns nothing, no candidate key is set |
| `Resolver.MappingWins` | grist-heatmap-plugin.js:20-25 | with both mapping names non-empty and both mapped values finite numbers, any row resolves to exactly those values whatever else it holds, so decoy `Lat`/`Lon` keys are ignored |
| `Resolver.MappingFallsThrough` | grist-heatmap-plugin.js:20-33 | a mapped value that is a string, null or missing is not coerced; the result is what the fallback scan gives without a mapping |
| `Resolver.FallbackResult` | grist-heatmap-plugin.js:27-34 | when the mapping path gives no pair, the result is `c` iff the first set latitude key and the first set longitude key parse to `c.lat` and `c.lon` |
| `Resolver.StopsAtFirstKey` | grist-heatmap-plugin.js:31-34 | if the first set candidate key does not parse to a finite number, the result is null; later keys are never consulted |
| `Resolver.ResolvedFromRow` | grist-heatmap-plugin.js:19-35 | a non-null result is a pair of finite numbers taken from the row: the two mapped numbers, or the parses of the first set latitude and longitude keys |
| `Resolver.NoRecognisedKeys` | grist-heatmap-plugin.js:28-34 | with no mapped pair and no recognised latitude (or longitude) key set, the result is null |
| `Aggregation.InAlabama` | grist-heatmap-plugin.js:58 | the region filter: a definition with no contract of its own; `BoundsInclusive` and `PointOfFilter` state that all four bounds are inclusive |
| `Aggregation.PointOf` | grist-heatmap-plugin.js:53-61 | one record's contribution: a definition with no contract of its own; `PointOfFilter` restates it in iff form |
| `Aggregation.Points` | grist-heatmap-plugin.js:52-62 | the specification of the push loop: a definition with no contract of its own; `CollectPoints` is proved equal to it, and `PointsBounded`, `PointsInRegion` and `PointsOrderedSubsequence` state its properties |
| `Aggregation.CollectPoints` | grist-heatmap-plugin.js:46-64 | absent or empty records give no points; otherwise the pushed points equal the specification `Points` of the records |
| `Aggregation.PointOfFilter` | grist-heatmap-plugin.js:53-60 | a record yields a point iff it resolves and the pair lies in the box; the point is `[lat, lon, 1]` |
| `Aggregation.BoundsInclusive` | grist-heatmap-plugin.js:41-44 | all four corners of the Alabama box are accepted: every bound is inclusive |
| `Aggregation.PointsBounded` | grist-heatmap-plugin.js:52-62 | there are never more points than records |
| `Aggregation.PointsInRegion` | grist-heatmap-plugin.js:52-62 | every point lies inside the box and has weight 1 |
| `Aggregation.PointsOrderedSubsequence` | grist-heatmap-plugin.js:52-62 | the points are the in-order subsequence of the contributing records: increasing source indices, each point from its record, and no contributing record missed |
| `Viewport.FitFor` | grist-heatmap-plugin.js:89-96 | the `fitBounds` request: a definition with no contract of its own; `FitFramesPoints` and `FitIsTight` state what it frames, and `RenderHeat` issues it |
| `Viewport.Extent` | grist-heatmap-plugin.js:93-95 | the box a `fitBounds` corner list spans contains every corner, and each side is attained by some corner |
| `Viewport.FitFramesPoints` | grist-heatmap-plugin.js:88-96 | the fit request has padding 30 on both axes and frames every point; for one point the box is that point ±0.1 on each axis |
| `Viewport.FitIsTight` | grist-heatmap-plugin.js:94-96 | for two or more points the framed box is the tight bounding box of the points |
| `Renderer.HeatLayer.constructor` | grist-heatmap-plugin.js:72-85 | a heat layer holds exactly the points and the fixed visual configuration it was built with |
| `Renderer.HeatMap.constructor` | grist-heatmap-plugin.js:16 | at start-up `heatLayer` is unset and no heat layer is attached |
| `Renderer.HeatMap.RenderHeat` | grist-heatmap-plugin.js:37-99 | the old layer is detached whenever removal succeeds, even on an empty render, which then leaves `heatLayer` and the viewport as they were; a non-empty render attaches a fresh layer of exactly the points and requests `FitFor(points)`, and a failed fit keeps the layer attached and the old framing |
| `Renderer.RenderTwice` | grist-heatmap-plugin.js:37-99 | rendering the same non-empty input twice leaves one layer holding that input's points, framed by that input's fit request |
| `Scenarios.SinglePointInAlabama` | grist-heatmap-plugin.js:90-93 | `{Lat: 32.3, Lng: -86.3}` gives the one point `[32.3, -86.3, 1]` and the request `[[32.2, -86.4], [32.4, -86.2]]` with padding 30 |
| `Scenarios.OutsideAlabama` | grist-heatmap-plugin.js:31-33 | `{lat: "10", lon: "10"}` resolves to (10, 10) and is then filtered out |
| `Scenarios.NoCoordinateKeys` | grist-heatmap-plugin.js:30-34 | `{foo: 1}` resolves to null and yields no point |
| `Scenarios.MappingIgnoresDecoys` | grist-heatmap-plugin.js:20-25 | mapping `x`/`y` on `{x: 33.5, y: -86.8, Lat: 999, Lon: 999}` gives (33.5, -86.8) |
| `Scenarios.FirstKeyDecides` | grist-heatmap-plugin.js:31-34 | `{Lat: "abc", lat: 5, Lng: -86}` resolves to null although `lat` parses |

## Left out

- Map and tile set-up (lines 8-14). It consists of one-off Leaflet calls: the initial `fitBounds`, `setMaxBounds` and the OpenStreetMap tile layer.
- The Grist handshake and event wiring (lines 103-127): `grist.ready`, `onReady`, `onRecords` and `mapColumnNames`. `RenderHeat` takes the records and the mapping as plain inputs.
- All `console` diagnostics. They do not affect behaviour.
- How Leaflet.heat draws a layer. The visual configuration is carried as the constant `HeatConfig` and is not interpreted.
- `parseFloat`'s string grammar. Each string or other non-number value carries its parse result, so any parse outcome is covered, but the parse of a particular text is not modelled.
- IEEE-754 doubles. Coordinates are exact reals, so the ±0.1 pad has no rounding, and a numeric string too large for a double (which parses to Infinity) is not special. `Rows.ParseFloat`: a non-finite result is `None`.
- `L.heatLayer(...).addTo(map)` throwing. It is outside any `try` and is not modelled.
- JavaScript's `in` also sees inherited properties. None of the candidate key names is one, so rows are plain maps.
