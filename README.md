# CycleMap — a verified model of the route planner's core

CycleMap is a browser cycling-route planner: the user drops waypoint markers
on a map, the mapping provider returns a bicycling route and 256 elevation
samples along it, and the page draws the route as short polylines coloured by
elevation, plus a column chart of the samples. Almost all of `cyclemap.js` is
glue around the provider's SDK. This project models the parts that have
behaviour of their own:

- **Colour rule** (`Colors`): `getElevationColor`. The first threshold looks at
  the rise above the route's minimum (≤ 10 m → green). The later two look at the
  absolute elevation (≤ 30 m → yellow, ≤ 75 m → orange, otherwise red). This
  mix is kept as written.
- **Min/max reduce** (`Elevation`): the `reduce` lambdas, written as left folds
  that start at the first sample. Among equally low samples the min reduce
  returns the last one. On an empty array JavaScript's `reduce` throws; the
  model returns `None` for that.
- **Segment builder** (`Segments`): the `forEach` that turns samples into
  `path` (two-point segments) and `colors`. Samples come in groups of three.
  The first two locations of a group form a pair. The third sample closes the
  pair: only its colour is used, never its location. A bridge from the previous
  pair's end to the new pair's start is pushed only once `path` already holds
  two entries. `colors` starts with `'#ccc'`, so `path[i]` is stroked with a
  colour shifted by one. A trailing group of fewer than three is dropped. The
  loop (`BuildSegments`) is proved equal to a positional description
  (`SegmentPath`, `SegmentColors`). Lemmas about that description give its
  exact shape: n/3 pairs, where the bridges sit, where every point comes from,
  where the line is continuous, and which colour each polyline gets.
- **Chart** (`Chart`, `CycleMap.PlotElevation`): one column per sample,
  coloured against the samples' own minimum. An empty list clears the chart.
- **Waypoint registry and redraw** (`Planner.CycleMap`): a class with the
  fields `markers` (ordered `(id, marker)` entries), `markerCounter`,
  `routePaths` and `chart`. Ids `wp_<n>` are represented by `n`. `AddWaypoint`,
  `RemoveWaypoint`, `OnDragEnd` (the `dragend` listener), `ClearRoutePaths`,
  `ClearChart` and `DrawMap` are methods that update these fields in place.
  Like the source, `AddWaypoint`, `RemoveWaypoint` and `OnDragEnd` call
  `DrawMap` themselves when two or more waypoints exist, and return how that
  redraw ended. `Redrawn` states the state a redraw leaves behind. `Valid`
  is the id invariant: ids increase along the list (so they are distinct),
  every id is below the counter, and the counter is 0 exactly when the list is
  empty. It is kept by `AddWaypoint` and `RemoveWaypoint`. The other methods
  leave the list and the counter alone, except `TakeOut`, the splice step of
  `RemoveWaypoint`. `Settled` says that with fewer
  than two waypoints no route and no chart is on display. It is kept by
  `AddWaypoint`, `RemoveWaypoint`, `OnDragEnd` and `DrawMap`, and by
  `ClearRoutePaths` and `ClearChart` through what they leave alone. It holds only
  because a redraw is one synchronous step here. `OnElevations` and
  `PlotElevation` do not keep it on their own: run with non-empty samples
  while fewer than two waypoints exist, they draw. In the browser that is a
  late elevation callback arriving after waypoints were removed. In the model
  they run only inside `DrawMap`, after its two-waypoint guard.

Marker handles and locations are type parameters; elevations are exact
`real`s. The routing and elevation callbacks are collapsed into one
synchronous `DrawMap` step. It takes the provider's answers (the routing
status and the elevation samples) as a parameter, and so do the three methods
that call it.

Two consequences of the segment builder are easy to miss:

- A pair takes the colour of the sample that *closes* it, not of its first
  sample. The polyline colours are shifted by one, so the first drawn segment
  is always grey (`Segments.DrawnColors`).
- Samples with elevations 5, 40, 80 and 5 give a single grey segment
  (`Segments.FourSamples`). The same samples give green, orange, red and green
  chart columns (`Chart.FourSampleChart`).

## Model

| member | source | states |
|---|---|---|
| `Colors.ElevationColor` | cyclemap.js:220-235 | for ordered numbers the result is always one of the four threshold colours and never `''` |
| `Colors.ThresholdTable` | cyclemap.js:224-232 | each band in both directions: green exactly when elevation − minimum ≤ 10; above that band, yellow exactly when elevation ≤ 30, orange exactly when 30 < elevation ≤ 75, red exactly when elevation > 75 |
| `Colors.RankMonotoneInElevation` | cyclemap.js:224-232 | for a fixed minimum, a higher sample never gets a gentler colour |
| `Colors.RankAntitoneInMinimum` | cyclemap.js:224-232 | for a fixed elevation, a higher route minimum never gets a steeper colour |
| `Colors.MinimumIsGreen` | cyclemap.js:224-225 | a sample at the route minimum is green |
| `Colors.RiseAloneDoesNotDecide` | cyclemap.js:224-232 | samples the same 30 m above their minimum can be yellow, orange or red, because the later thresholds use absolute elevation |
| `Colors.ReferencePoints` | cyclemap.js:220-235 | with minimum 0: 5 → green, 20 → yellow, 50 → orange, 100 → red |
| `Elevation.MaxFrom` | cyclemap.js:167-169 | the left fold of the max reducer returns the start value or an element of the rest, and is at least as high as both |
| `Elevation.MinFrom` | cyclemap.js:171-173 | the left fold of the min reducer returns the start value or an element of the rest, and is at most as high as both |
| `Elevation.ReduceMax` | cyclemap.js:167-169 | throws (`None`) exactly on an empty list; otherwise returns a sample of the list that is at least as high as every sample |
| `Elevation.ReduceMin` | cyclemap.js:171-173 | throws (`None`) exactly on an empty list; otherwise returns a sample of the list that is at most as high as every sample |
| `Elevation.MinElevation` | cyclemap.js:254-256 | the minimum is the elevation of some sample, and every sample's elevation minus it is ≥ 0 |
| `Elevation.LastLowestFrom` | cyclemap.js:171-173 | the fold of the min reducer ends on the start value or on an element of the rest, and every later element is strictly higher |
| `Elevation.MinKeepsLastLowest` | cyclemap.js:171-173 | on a non-empty list the min reduce returns the sample at some index i, and every later sample is strictly higher, so it is the last of the equally low samples |
| `Segments.PathStep` | cyclemap.js:183-198 | closing group k appends a bridge (only when k ≥ 2) and then pair k to `path` |
| `Segments.ColorsStep` | cyclemap.js:187-195 | closing group k appends its closing sample's colour to `colors`, twice when a bridge was pushed |
| `Segments.PairPlaced` | cyclemap.js:183-196 | pair j is found at position `PairIndex(j)` of `path` once more than j groups are closed |
| `Segments.BridgePlaced` | cyclemap.js:187-191 | the bridge in front of pair j ≥ 2 is found at position `BridgeIndex(j)` |
| `Segments.LastPairEnd` | cyclemap.js:187-191 | once two pairs are closed, `path` holds more than one entry and its last entry ends at the second location of the last pair (sample 3k−2) |
| `Segments.CloseGroup` | cyclemap.js:185-198 | pushing the bridge (only when `path` has more than one entry), its colour, the closing colour and the pair moves `path` and `colors` from their state after k groups to their state after k+1 |
| `Segments.BuildSegments` | cyclemap.js:175-200 | the loop yields exactly `SegmentPath(s)` and `SegmentColors(s, min)`; `colors` has one entry more than `path` after every iteration and starts with `'#ccc'` |
| `Segments.PairsAndBridgesAfter` | cyclemap.js:179-198 | after k groups `path` holds k pairs and max(k−2, 0) bridges; pair j (samples 3j, 3j+1) and the bridge before pair j (j ≥ 2: samples 3j−2 to 3j) sit at fixed positions, and every position is one of these |
| `Segments.SlotCovers` | cyclemap.js:179-198 | every position of `path` decodes to a pair or a bridge of a closed group, and encodes back to the same position |
| `Segments.PairsAndBridges` | cyclemap.js:179-198 | for n samples `path` holds exactly ⌊n/3⌋ pairs plus the bridges, at the positions above |
| `Segments.PointsComeFromPairSamplesAfter` | cyclemap.js:183-197 | every endpoint after k groups is the location of a sample among the first 3k whose index is not ≡ 2 (mod 3) |
| `Segments.PointsAt` | cyclemap.js:183-197 | entry i starts at sample `FromSample(i)` and ends at sample `ToSample(i)`; both lie in a closed group and neither is a closing sample |
| `Segments.PointsComeFromPairSamples` | cyclemap.js:179-198 | closing samples and a trailing incomplete pair contribute no point to `path` |
| `Segments.ContinuousAt` | cyclemap.js:187-191 | for i ≥ 1, entry i ends where entry i+1 starts |
| `Segments.ContinuousFromSecondPair` | cyclemap.js:187-191 | from entry 1 on, each segment starts where the previous one ends; entries 0 and 1 are not bridged (a gap from sample 1 to sample 3) |
| `Segments.ColorLayout` | cyclemap.js:176-195 | `colors` has one entry more than `path` and starts with `'#ccc'`, then pair 0's and pair 1's closing colours, then each later closing colour twice |
| `Segments.MakePolylines` | cyclemap.js:202-208 | one polyline per `path` entry, entry i stroked with `colors[i]` |
| `Segments.DrawnColors` | cyclemap.js:202-207 | in the drawn polylines, pair 0 is grey, pair 1 has pair 0's closing colour, pair j ≥ 2 has its own closing colour, and the bridge before pair j has pair j−1's |
| `Segments.DrawnAt` | cyclemap.js:202-207 | pair j ≥ 2 is drawn with its own closing colour, and the bridge in front of it with pair j−1's |
| `Segments.FourSamples` | cyclemap.js:175-200 | four samples give a single segment (samples 0 and 1) and colours `['#ccc', colour of sample 2]` |
| `Chart.ColumnsAreThresholdColored` | cyclemap.js:254-261 | every column of a drawn chart has one of the four threshold colours, and at least one column is green |
| `Chart.FourSampleChart` | cyclemap.js:254-261 | elevations 5, 40, 80, 5 chart as green, orange, red and green columns |
| `Planner.WithoutAbsent` | cyclemap.js:99-106 | removing an id that no entry has leaves the list unchanged |
| `Planner.WithoutAt` | cyclemap.js:99-106 | with increasing ids, removing the id of entry k is splicing entry k out; the others keep their order |
| `Planner.WithoutKeeps` | cyclemap.js:99-106 | removal keeps only entries of the list, none with the removed id, and never adds any |
| `Planner.SpliceKeepsIdsIncreasing` | cyclemap.js:102 | splicing one entry out keeps the ids increasing |
| `Planner.FindEntry` | cyclemap.js:99-100 | finds the first entry with the id, or reports none iff no entry has it |
| `Planner.CycleMap.constructor` | cyclemap.js:4-10 | the registry starts empty with the counter at 0, and no route or chart is drawn |
| `Planner.CycleMap.AddWaypoint` | cyclemap.js:33-95 | appends exactly one entry with id = counter. The title is `Start` with the closed arrow (scale 5) iff the counter was 0 (iff the list was empty); otherwise it is `Waypoint n` with the open arrow (scale 3). The counter goes up by 1. The route is redrawn (`Redrawn`) iff the list now has more than one entry; otherwise route and chart are untouched. Both invariants are kept |
| `Planner.CycleMap.TakeOut` | cyclemap.js:99-106 | the entry with the id is spliced out and its marker returned, the others stay in order; an unknown id changes nothing; ids stay increasing and below the counter |
| `Planner.CycleMap.RemoveWaypoint` | cyclemap.js:97-117 | takes out the entry with the id, keeping the others in order; an unknown id changes nothing. Then: 0 left → counter 0, nothing redrawn; 1 left → route and chart cleared; ≥ 2 left → the route is redrawn (`Redrawn`). Both invariants are kept |
| `Planner.CycleMap.ClearRoutePaths` | cyclemap.js:119-126 | every drawn polyline is taken off the map and `routePaths` becomes empty; nothing else changes |
| `Planner.CycleMap.OnDragEnd` | cyclemap.js:67-71 | the route is redrawn (`Redrawn`) iff more than one waypoint exists, otherwise nothing changes; the list and the counter are never changed, and `Settled` is kept |
| `Planner.CycleMap.PlotElevation` | cyclemap.js:237-268 | an empty list blanks the chart; otherwise there is one column per sample, with its elevation and the threshold colour against the samples' minimum |
| `Planner.CycleMap.ClearChart` | cyclemap.js:270-272 | the chart is blank afterwards; nothing else changes |
| `Planner.CycleMap.OnElevations` | cyclemap.js:165-211 | an empty response throws in the reduce and changes nothing. Otherwise the polylines for `path[i]` stroked with `colors[i]` (minimum taken by the min reduce) are appended to `routePaths`, and the chart shows the samples |
| `Planner.CycleMap.DrawMap` | cyclemap.js:128-218 | leaves the list and the counter alone and keeps `Settled`; its result is `Redrawn`: it always clears the route first. With < 2 waypoints it issues no request. Otherwise it requests a bicycling, metric, optimised route from the first waypoint to the last, through all of them in order. A non-OK status leaves no route and the chart as it was. Empty elevations throw before drawing. Otherwise `routePaths` is exactly `path[i]` stroked with `colors[i]` and the chart shows the samples |
| `Planner.RestartAfterLastRemoved` | cyclemap.js:108-109 | after the only waypoint is removed, the next one added is `Start` with id 0 |

## Left out

- Map bootstrap and geolocation (`initMap`, cyclemap.js:12-31) and the `origin` field: browser I/O and SDK construction.
- SDK objects (`Map`, `Marker`, `InfoWindow`, `Polyline`, `DirectionsService`, `ElevationService`, `ColumnChart`, `DataTable`): markers and locations are opaque type parameters; a polyline and a chart are plain values; `setMap(null)` is modelled as returning the detached handle(s).
- Click listener, info window and DOM list entries (cyclemap.js:59-65, 78-88, 103): they only mirror the registry.
- Marker positions and their `"lat, lng"` strings (cyclemap.js:135-140): the routing request carries the marker handles in list order.
- The elevation request (route overview path, 256 samples, cyclemap.js:158-165): the samples arrive as a parameter of `DrawMap`, and their number is not constrained.
- The unchecked elevation status and a null elevation result: the model only sees a list of samples; an empty list is the one failure modelled.
- `maxElevation` is computed but never used by the source; the model keeps the call only for its throw on an empty list.
- Chart drawing options (height 150, no legend, axis title) and the empty category cell of each row.
- Asynchrony: the routing and elevation callbacks and the race between overlapping redraws; `DrawMap` is one synchronous step, so a late callback that draws after the waypoints went below two (breaking `Settled`) cannot occur in the model.
- `alert` and `console.error`: reported as the `DirectionsFailed` and `TooFewWaypoints` outcomes.
- NaN and floating-point rounding: elevations are exact reals, so the `''` branch of the colour rule is unreachable in the model.
- The effect of `splice` inside `forEach` on the rest of that iteration: removal is "take out the entry with this id", which is what happens given distinct ids.
- Ids as strings: an id is its counter value, so a malformed id string cannot be expressed.
- Planner.CycleMap.DrawMap: in the source only the first part runs inside `addWaypoint`, `removeWaypoint` and the `dragend` listener before they return: clearing the route (cyclemap.js:130), the two-waypoint check (142) and the route request (147). The drawing of segments and chart happens later in the callbacks. The model runs all of it inside the calling method, with the answers passed in.
