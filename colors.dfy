/**
 * The elevation colour rule of the route planner (CycleMap.getElevationColor).
 *
 * The first threshold compares the elevation relative to the route's minimum,
 * the two later ones compare the absolute elevation. That mix is kept exactly.
 */
module Colors {

  const Green := "#16ce25"
  const Yellow := "#ffe92c"
  const Orange := "#ffb51d"
  const Red := "#ff0000"

  /** One of the four colours the rule hands out. */
  predicate IsThresholdColor(c: string) {
    c == Green || c == Yellow || c == Orange || c == Red
  }

  /**
   * Colour of a sample at `elevation` on a route whose lowest sample is at
   * `minElevation`. The trailing empty string is the value JavaScript keeps
   * for a NaN elevation; on exact numbers it is never reached.
   */
  function ElevationColor(elevation: real, minElevation: real): (c: string)
    ensures IsThresholdColor(c) && c != ""
  {
    if elevation - minElevation <= 10.0 then Green
    else if elevation <= 30.0 then Yellow
    else if elevation <= 75.0 then Orange
    else if elevation > 75.0 then Red
    else ""
  }

  /**
   * The threshold table, each band in both directions: green exactly within
   * 10 m of the minimum; above that, yellow up to 30 m, orange up to 75 m and
   * red beyond, all three measured as absolute elevation.
   */
  lemma ThresholdTable(elevation: real, minElevation: real)
    ensures var c := ElevationColor(elevation, minElevation);
      (c == Green <==> elevation - minElevation <= 10.0)
      && (c == Yellow <==> elevation - minElevation > 10.0 && elevation <= 30.0)
      && (c == Orange <==> elevation - minElevation > 10.0 && 30.0 < elevation <= 75.0)
      && (c == Red <==> elevation - minElevation > 10.0 && elevation > 75.0)
  {
  }

  /** Steepness rank of a colour: green, yellow, orange, red. */
  function Rank(c: string): nat {
    if c == Green then 0 else if c == Yellow then 1 else if c == Orange then 2 else 3
  }

  /** A higher sample on the same route never gets a gentler colour. */
  lemma RankMonotoneInElevation(e1: real, e2: real, m: real)
    requires e1 <= e2
    ensures Rank(ElevationColor(e1, m)) <= Rank(ElevationColor(e2, m))
  {
  }

  /** The same sample on a route with a higher minimum never gets a steeper colour. */
  lemma RankAntitoneInMinimum(e: real, m1: real, m2: real)
    requires m1 <= m2
    ensures Rank(ElevationColor(e, m2)) <= Rank(ElevationColor(e, m1))
  {
  }

  /** The lowest sample of a route is always drawn green. */
  lemma MinimumIsGreen(m: real)
    ensures ElevationColor(m, m) == Green
  {
  }

  /**
   * The colour is not a function of the rise above the minimum alone: two
   * samples 30 m above their route's minimum get different colours, because
   * the later thresholds look at the absolute elevation.
   */
  lemma RiseAloneDoesNotDecide()
    ensures ElevationColor(40.0, 10.0) == Orange
    ensures ElevationColor(130.0, 100.0) == Red
    ensures ElevationColor(20.0, -10.0) == Yellow
  {
  }

  /** The four reference points of the colour table, for a route whose minimum is 0. */
  lemma ReferencePoints()
    ensures ElevationColor(5.0, 0.0) == Green
    ensures ElevationColor(20.0, 0.0) == Yellow
    ensures ElevationColor(50.0, 0.0) == Orange
    ensures ElevationColor(100.0, 0.0) == Red
  {
  }
}
