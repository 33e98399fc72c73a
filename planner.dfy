/**
 * The route planner object: its waypoint registry (`markers`, `markerCounter`),
 * the drawn route (`routePaths`) and the elevation chart, with the add/remove
 * policy and the redraw step.
 *
 * Marker handles (`M`) and locations (`L`) are opaque; the provider's routing
 * and elevation answers are passed in as a `RouteReply`, so one redraw is a
 * synchronous step. A waypoint id `wp_n` is represented by `n`.
 */
module Planner {
  import opened Optional
  import opened Colors
  import opened Elevation
  import opened Segments
  import opened Chart

  /** A registry entry: the list id (`wp_<listId>`) and the marker handle. */
  datatype Entry<M> = Entry(listId: nat, marker: M)

  /** Title shown for a waypoint: `Start`, or `Waypoint <n>`. */
  datatype Title = Start | Numbered(n: nat)

  /** The marker symbols used. */
  datatype Symbol = BackwardOpenArrow | BackwardClosedArrow

  /** A marker icon: its symbol path and scale. */
  datatype Icon = Icon(path: Symbol, scale: nat)

  /** The routing request: origin, destination, every waypoint as a stop. */
  datatype RouteRequest<M> = RouteRequest(
    origin: M, destination: M, waypoints: seq<M>,
    optimizeWaypoints: bool, travelMode: string, metric: bool)

  /** The provider's answers: the routing status and the elevation samples along the route. */
  datatype RouteReply<L> = RouteReply(status: string, elevations: seq<Sample<L>>)

  /** How a redraw ended. */
  datatype DrawOutcome<M> =
    | TooFewWaypoints                              // logged, no request issued
    | DirectionsFailed(request: RouteRequest<M>)   // the user is alerted
    | ElevationsThrew(request: RouteRequest<M>)    // reduce of an empty response throws
    | Drawn(request: RouteRequest<M>)

  /** Ids increase along the list; in particular they are pairwise distinct. */
  ghost predicate IdsIncreasing<M>(ms: seq<Entry<M>>) {
    forall i, j :: 0 <= i < j < |ms| ==> ms[i].listId < ms[j].listId
  }

  /** The list with every entry whose id is `id` taken out, the others kept in order. */
  function Without<M>(ms: seq<Entry<M>>, id: nat): (r: seq<Entry<M>>)
    decreases |ms|
  {
    if ms == [] then []
    else (if ms[0].listId == id then [] else [ms[0]]) + Without(ms[1..], id)
  }

  /** What `Without` keeps: no entry with `id`, and only entries of the list, never more of them. */
  lemma {:induction false} WithoutKeeps<M>(ms: seq<Entry<M>>, id: nat)
    ensures |Without(ms, id)| <= |ms|
    ensures forall e :: e in Without(ms, id) ==> e in ms && e.listId != id
    decreases |ms|
  {
    if ms != [] {
      WithoutKeeps(ms[1..], id);
      assert forall e :: e in ms[1..] ==> e in ms;
    }
  }

  /** Removing an id no entry has changes nothing. */
  lemma {:induction false} WithoutAbsent<M>(ms: seq<Entry<M>>, id: nat)
    requires forall i :: 0 <= i < |ms| ==> ms[i].listId != id
    ensures Without(ms, id) == ms
    decreases |ms|
  {
    if ms != [] {
      WithoutAbsent(ms[1..], id);
      assert [ms[0]] + ms[1..] == ms;
    }
  }

  /** With increasing ids, removing the id of entry k is splicing entry k out. */
  lemma {:induction false} WithoutAt<M>(ms: seq<Entry<M>>, id: nat, k: nat)
    requires IdsIncreasing(ms) && k < |ms| && ms[k].listId == id
    ensures Without(ms, id) == ms[..k] + ms[k + 1..]
    decreases |ms|
  {
    var tail := ms[1..];
    assert forall i :: 0 <= i < |tail| ==> tail[i] == ms[i + 1];
    assert Without(ms, id) == (if ms[0].listId == id then [] else [ms[0]]) + Without(tail, id);
    if k == 0 {
      WithoutAbsent(tail, id);
    } else {
      assert ms[0].listId < ms[k].listId;
      assert IdsIncreasing(tail);
      WithoutAt(tail, id, k - 1);
      assert tail[..k - 1] + tail[k..] == ms[1..k] + ms[k + 1..];
      assert [ms[0]] + ms[1..k] == ms[..k];
    }
  }

  /** Increasing ids stay increasing when an entry is taken out. */
  lemma SpliceKeepsIdsIncreasing<M>(ms: seq<Entry<M>>, k: nat)
    requires IdsIncreasing(ms) && k < |ms|
    ensures IdsIncreasing(ms[..k] + ms[k + 1..])
  {
    var r := ms[..k] + ms[k + 1..];
    forall i, j | 0 <= i < j < |r| ensures r[i].listId < r[j].listId {
      var i' := if i < k then i else i + 1;
      var j' := if j < k then j else j + 1;
      assert r[i] == ms[i'] && r[j] == ms[j'];
    }
  }

  /** The `forEach` of `removeWaypoint`: the position of the first entry with `id`, if any. */
  method FindEntry<M>(ms: seq<Entry<M>>, id: nat) returns (k: Option<nat>)
    ensures k.None? <==> forall i :: 0 <= i < |ms| ==> ms[i].listId != id
    ensures k.Some? ==> k.value < |ms| && ms[k.value].listId == id
    ensures k.Some? ==> forall i :: 0 <= i < k.value ==> ms[i].listId != id
  {
    var i := 0;
    while i < |ms|
      invariant 0 <= i <= |ms|
      invariant forall j :: 0 <= j < i ==> ms[j].listId != id
    {
      if ms[i].listId == id {
        return Some(i);
      }
      i := i + 1;
    }
    return None;
  }

  class CycleMap<M, L> {
    var markers: seq<Entry<M>>
    var markerCounter: nat
    var routePaths: seq<Polyline<L>>
    var chart: ChartView

    /** The id invariant: ids increase along the list and lie below the counter, which is 0 exactly when the list is empty. */
    ghost predicate Valid()
      reads this
    {
      IdsIncreasing(markers)
      && (forall i :: 0 <= i < |markers| ==> markers[i].listId < markerCounter)
      && (markers == [] <==> markerCounter == 0)
    }

    /**
     * With fewer than two waypoints no route and no chart is on display. This
     * holds because a redraw is one synchronous step here; a late elevation
     * callback in the browser could break it.
     */
    ghost predicate Settled()
      reads this
    {
      |markers| < 2 ==> routePaths == [] && chart == Blank
    }

    constructor ()
      ensures Valid() && Settled()
      ensures markers == [] && markerCounter == 0 && routePaths == [] && chart == Blank
    {
      markers := [];
      markerCounter := 0;
      routePaths := [];
      chart := Blank;
    }

    /**
     * The state one redraw leaves behind, given the provider's answers in
     * `reply` and the chart shown before it: with fewer than two waypoints no
     * request and no route; otherwise a bicycling, metric, optimised request
     * from the first waypoint to the last through all of them in order, and
     * then no route (failed status, or an empty response on which the reduce
     * throws) or the segments of the samples and their chart.
     */
    ghost predicate Redrawn(reply: RouteReply<L>, outcome: DrawOutcome<M>, chartBefore: ChartView)
      reads this
    {
      if |markers| < 2 then
        outcome == TooFewWaypoints && routePaths == [] && chart == chartBefore
      else
        !outcome.TooFewWaypoints?
        && outcome.request.origin == markers[0].marker
        && outcome.request.destination == markers[|markers| - 1].marker
        && |outcome.request.waypoints| == |markers|
        && (forall i :: 0 <= i < |markers| ==> outcome.request.waypoints[i] == markers[i].marker)
        && outcome.request.optimizeWaypoints && outcome.request.travelMode == "BICYCLING"
        && outcome.request.metric
        && if reply.status != "OK" then
             outcome.DirectionsFailed? && routePaths == [] && chart == chartBefore
           else if reply.elevations == [] then
             outcome.ElevationsThrew? && routePaths == [] && chart == chartBefore
           else
             outcome.Drawn?
             && DrawnFrom(routePaths, SegmentPath(reply.elevations),
                          SegmentColors(reply.elevations, MinElevation(reply.elevations)))
             && Shows(chart, reply.elevations)
    }

    /**
     * Appends a waypoint for the freshly created `marker`. The first waypoint
     * of a session (counter at 0) is titled `Start` and gets the closed arrow.
     * With more than one waypoint the route is redrawn, before the counter
     * goes up; `reply` holds the provider's answers to that redraw.
     */
    method AddWaypoint(marker: M, reply: RouteReply<L>) returns (title: Title, icon: Icon, redraw: Option<DrawOutcome<M>>)
      requires Valid()
      modifies this
      ensures Valid()
      ensures markers == old(markers) + [Entry(old(markerCounter), marker)]
      ensures markerCounter == old(markerCounter) + 1
      ensures title == (if old(markerCounter) == 0 then Start else Numbered(old(markerCounter)))
      ensures title == Start <==> old(markers) == []
      ensures icon == (if title == Start then Icon(BackwardClosedArrow, 5) else Icon(BackwardOpenArrow, 3))
      ensures redraw.Some? <==> |markers| > 1
      ensures redraw.None? ==> routePaths == old(routePaths) && chart == old(chart)
      ensures redraw.Some? ==> Redrawn(reply, redraw.value, old(chart))
      ensures old(Settled()) ==> Settled()
    {
      title := Numbered(markerCounter);
      var id := markerCounter;
      icon := Icon(BackwardOpenArrow, 3);
      if markerCounter == 0 {
        title := Start;
        icon := Icon(BackwardClosedArrow, 5);
      }
      markers := markers + [Entry(id, marker)];
      redraw := None;
      if |markers| > 1 {
        var outcome := DrawMap(reply);
        redraw := Some(outcome);
      }
      markerCounter := markerCounter + 1;
    }

    /**
     * The `forEach` of `removeWaypoint`: the entry with `id`, if there is one,
     * is spliced out and its marker taken off the map (returned). The counter
     * is left as it is; resetting it once the list is empty is the caller's job.
     */
    method TakeOut(id: nat) returns (detached: Option<M>)
      requires Valid()
      modifies this
      ensures IdsIncreasing(markers) && forall i :: 0 <= i < |markers| ==> markers[i].listId < markerCounter
      ensures markers == Without(old(markers), id)
      ensures detached.None? <==> forall i :: 0 <= i < |old(markers)| ==> old(markers)[i].listId != id
      ensures detached.Some? ==> Entry(id, detached.value) in old(markers)
      ensures |markers| == |old(markers)| - (if detached.Some? then 1 else 0)
      ensures markerCounter == old(markerCounter) && routePaths == old(routePaths) && chart == old(chart)
    {
      var found := FindEntry(markers, id);
      detached := None;
      if found.Some? {
        var k := found.value;
        detached := Some(markers[k].marker);
        WithoutAt(markers, id, k);
        SpliceKeepsIdsIncreasing(markers, k);
        assert markers[k] == Entry(id, detached.value);
        markers := markers[..k] + markers[k + 1..];
      } else {
        WithoutAbsent(markers, id);
      }
    }

    /**
     * Takes out the waypoint with `id` (an unknown id changes nothing), then:
     * none left, the counter restarts; one left, route and chart are cleared;
     * two or more, the route is redrawn with the provider's answers in `reply`.
     */
    method RemoveWaypoint(id: nat, reply: RouteReply<L>) returns (detached: Option<M>, redraw: Option<DrawOutcome<M>>)
      requires Valid()
      modifies this
      ensures Valid()
      ensures markers == Without(old(markers), id)
      ensures detached.None? <==> forall i :: 0 <= i < |old(markers)| ==> old(markers)[i].listId != id
      ensures detached.Some? ==> Entry(id, detached.value) in old(markers)
      ensures |markers| == |old(markers)| - (if detached.Some? then 1 else 0)
      ensures |markers| == 0 ==>
        markerCounter == 0 && redraw.None? && routePaths == old(routePaths) && chart == old(chart)
      ensures |markers| == 1 ==>
        markerCounter == old(markerCounter) && redraw.None? && routePaths == [] && chart == Blank
      ensures |markers| >= 2 ==>
        markerCounter == old(markerCounter) && redraw.Some? && Redrawn(reply, redraw.value, old(chart))
      ensures old(Settled()) ==> Settled()
    {
      detached := TakeOut(id);
      redraw := None;
      if |markers| == 0 {
        markerCounter := 0;
      } else if |markers| < 2 {
        var _ := ClearRoutePaths();
        ClearChart();
      } else {
        var outcome := DrawMap(reply);
        redraw := Some(outcome);
      }
    }

    /** Takes every drawn polyline off the map; returns the ones taken off. */
    method ClearRoutePaths() returns (detached: seq<Polyline<L>>)
      modifies this
      ensures detached == old(routePaths) && routePaths == []
      ensures markers == old(markers) && markerCounter == old(markerCounter) && chart == old(chart)
    {
      detached := routePaths;
      routePaths := [];
    }

    /**
     * The `dragend` listener every marker gets: the route is redrawn, with the
     * provider's answers in `reply`, only when more than one waypoint exists.
     */
    method OnDragEnd(reply: RouteReply<L>) returns (redraw: Option<DrawOutcome<M>>)
      modifies this
      ensures markers == old(markers) && markerCounter == old(markerCounter)
      ensures redraw.Some? <==> |markers| > 1
      ensures redraw.None? ==> routePaths == old(routePaths) && chart == old(chart)
      ensures redraw.Some? ==> Redrawn(reply, redraw.value, old(chart))
      ensures old(Settled()) ==> Settled()
    {
      redraw := None;
      if |markers| > 1 {
        var outcome := DrawMap(reply);
        redraw := Some(outcome);
      }
    }

    /** Draws the chart for `elevations`; an empty list clears it. */
    method PlotElevation(elevations: seq<Sample<L>>)
      modifies this
      ensures Shows(chart, elevations)
      ensures markers == old(markers) && markerCounter == old(markerCounter) && routePaths == old(routePaths)
    {
      if |elevations| == 0 {
        chart := Blank;
        return;
      }
      var minElevation := ReduceMin(elevations).value.elevation;
      var rows: seq<Bar> := [];
      for i := 0 to |elevations|
        invariant |rows| == i
        invariant forall t :: 0 <= t < i ==>
          rows[t] == Bar(elevations[t].elevation, StyleOf(ElevationColor(elevations[t].elevation, minElevation)))
      {
        var color := ElevationColor(elevations[i].elevation, minElevation);
        rows := rows + [Bar(elevations[i].elevation, StyleOf(color))];
      }
      chart := Columns(rows);
    }

    /** Clears the chart by plotting no samples. */
    method ClearChart()
      modifies this
      ensures chart == Blank
      ensures markers == old(markers) && markerCounter == old(markerCounter) && routePaths == old(routePaths)
    {
      PlotElevation([]);
    }

    /**
     * The elevation callback: min and max by `reduce` (which throws on an
     * empty response), the segment builder, one polyline per `path` entry
     * appended to `routePaths`, then the chart.
     */
    method OnElevations(elevations: seq<Sample<L>>) returns (drawn: bool)
      modifies this
      ensures markers == old(markers) && markerCounter == old(markerCounter)
      ensures drawn <==> elevations != []
      ensures !drawn ==> routePaths == old(routePaths) && chart == old(chart)
      ensures drawn ==>
        |old(routePaths)| <= |routePaths| && routePaths[..|old(routePaths)|] == old(routePaths)
        && DrawnFrom(routePaths[|old(routePaths)|..], SegmentPath(elevations),
                     SegmentColors(elevations, MinElevation(elevations)))
        && Shows(chart, elevations)
    {
      var maxSample := ReduceMax(elevations);
      if maxSample.None? {
        return false;
      }
      var minElevation := ReduceMin(elevations).value.elevation;
      var path, colors := BuildSegments(elevations, minElevation);
      var lines := MakePolylines(path, colors);
      ghost var before := routePaths;
      routePaths := routePaths + lines;
      assert routePaths[..|before|] == before && routePaths[|before|..] == lines;
      PlotElevation(elevations);
      return true;
    }

    /**
     * One redraw, with the provider's answers in `reply`: the drawn route is
     * always cleared first; with fewer than two waypoints nothing is requested;
     * otherwise the route is requested through every waypoint, and on an OK
     * status the segments and the chart are drawn from the elevation samples.
     */
    method DrawMap(reply: RouteReply<L>) returns (outcome: DrawOutcome<M>)
      modifies this
      ensures markers == old(markers) && markerCounter == old(markerCounter)
      ensures Redrawn(reply, outcome, old(chart))
      ensures old(Settled()) ==> Settled()
    {
      var _ := ClearRoutePaths();
      var waypoints: seq<M> := [];
      for i := 0 to |markers|
        invariant |waypoints| == i
        invariant forall t :: 0 <= t < i ==> waypoints[t] == markers[t].marker
      {
        waypoints := waypoints + [markers[i].marker];
      }
      if |waypoints| < 2 {
        return TooFewWaypoints;
      }
      var request := RouteRequest(waypoints[0], waypoints[|waypoints| - 1], waypoints, true, "BICYCLING", true);
      if reply.status != "OK" {
        return DirectionsFailed(request);
      }
      var drawn := OnElevations(reply.elevations);
      if !drawn {
        return ElevationsThrew(request);
      }
      assert routePaths[0..] == routePaths;
      return Drawn(request);
    }
  }

  /**
   * Removing the only waypoint restarts the session: the next waypoint added
   * is again titled `Start` and gets id 0.
   */
  method RestartAfterLastRemoved<M, L>(cm: CycleMap<M, L>, m: M) returns (title: Title)
    requires cm.Valid() && |cm.markers| == 1
    modifies cm
    ensures cm.Valid() && title == Start && cm.markers == [Entry(0, m)]
  {
    var _, _ := cm.RemoveWaypoint(cm.markers[0].listId, RouteReply("OK", []));
    var icon, redraw;
    title, icon, redraw := cm.AddWaypoint(m, RouteReply("OK", []));
  }
}
