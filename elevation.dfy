/**
 * Elevation samples and the two `reduce` calls that pick the highest and the
 * lowest sample of a response.
 *
 * `reduce` without an initial value folds from the left, starting with the
 * first sample, and throws on an empty array; `None` stands for that throw.
 */
module Elevation {
  import opened Optional

  /** One sample of the elevation response: an opaque location and its height. */
  datatype Sample<L> = Sample(location: L, elevation: real)

  /** The max reducer: keeps `prev` only when it is strictly higher. */
  function Higher<L>(prev: Sample<L>, current: Sample<L>): Sample<L> {
    if prev.elevation > current.elevation then prev else current
  }

  /** The min reducer: keeps `prev` only when it is strictly lower. */
  function Lower<L>(prev: Sample<L>, current: Sample<L>): Sample<L> {
    if prev.elevation < current.elevation then prev else current
  }

  /** Left fold of `Higher` over `rest`, starting from `acc`. */
  function MaxFrom<L>(acc: Sample<L>, rest: seq<Sample<L>>): (r: Sample<L>)
    ensures r == acc || r in rest
    ensures acc.elevation <= r.elevation
    ensures forall i :: 0 <= i < |rest| ==> rest[i].elevation <= r.elevation
    decreases |rest|
  {
    if rest == [] then acc
    else
      var r := MaxFrom(Higher(acc, rest[0]), rest[1..]);
      assert forall i :: 1 <= i < |rest| ==> rest[i] == rest[1..][i - 1];
      r
  }

  /** Left fold of `Lower` over `rest`, starting from `acc`. */
  function MinFrom<L>(acc: Sample<L>, rest: seq<Sample<L>>): (r: Sample<L>)
    ensures r == acc || r in rest
    ensures r.elevation <= acc.elevation
    ensures forall i :: 0 <= i < |rest| ==> r.elevation <= rest[i].elevation
    decreases |rest|
  {
    if rest == [] then acc
    else
      var r := MinFrom(Lower(acc, rest[0]), rest[1..]);
      assert forall i :: 1 <= i < |rest| ==> rest[i] == rest[1..][i - 1];
      r
  }

  /** `elevations.reduce(max)`: a sample of `s` at least as high as every sample. */
  function ReduceMax<L>(s: seq<Sample<L>>): (r: Option<Sample<L>>)
    ensures r.None? <==> s == []
    ensures r.Some? ==> r.value in s
    ensures r.Some? ==> forall i :: 0 <= i < |s| ==> s[i].elevation <= r.value.elevation
  {
    if s == [] then None
    else
      var m := MaxFrom(s[0], s[1..]);
      assert forall i :: 1 <= i < |s| ==> s[i] == s[1..][i - 1];
      Some(m)
  }

  /** `elevations.reduce(min)`: a sample of `s` at most as high as every sample. */
  function ReduceMin<L>(s: seq<Sample<L>>): (r: Option<Sample<L>>)
    ensures r.None? <==> s == []
    ensures r.Some? ==> r.value in s
    ensures r.Some? ==> forall i :: 0 <= i < |s| ==> r.value.elevation <= s[i].elevation
  {
    if s == [] then None
    else
      var m := MinFrom(s[0], s[1..]);
      assert forall i :: 1 <= i < |s| ==> s[i] == s[1..][i - 1];
      Some(m)
  }

  /** `.elevation` of the min reduce, on a response the reduce does not throw on. */
  function MinElevation<L>(s: seq<Sample<L>>): (m: real)
    requires s != []
    ensures exists i :: 0 <= i < |s| && s[i].elevation == m
    ensures forall i :: 0 <= i < |s| ==> 0.0 <= s[i].elevation - m
  {
    var r := ReduceMin(s).value;
    assert r in s;
    r.elevation
  }

  /**
   * The fold keeps the last of the equally low samples: it ends on `rest[i]`,
   * or on `acc` when `i` is -1, and every later sample is strictly higher.
   */
  lemma {:induction false} LastLowestFrom<L>(acc: Sample<L>, rest: seq<Sample<L>>) returns (i: int)
    ensures -1 <= i < |rest|
    ensures MinFrom(acc, rest) == if i < 0 then acc else rest[i]
    ensures forall j :: i < j < |rest| ==> MinFrom(acc, rest).elevation < rest[j].elevation
    decreases |rest|
  {
    if rest == [] {
      return -1;
    }
    var tail := rest[1..];
    var k := LastLowestFrom(Lower(acc, rest[0]), tail);
    assert forall j :: 1 <= j < |rest| ==> rest[j] == tail[j - 1];
    if k >= 0 {
      i := k + 1;
    } else if acc.elevation < rest[0].elevation {
      i := -1;
    } else {
      i := 0;
    }
  }

  /** Among equally low samples the min reduce returns the last one. */
  lemma MinKeepsLastLowest<L>(s: seq<Sample<L>>) returns (i: nat)
    requires s != []
    ensures i < |s| && ReduceMin(s) == Some(s[i])
    ensures forall j :: i < j < |s| ==> s[i].elevation < s[j].elevation
  {
    var k := LastLowestFrom(s[0], s[1..]);
    assert forall j :: 1 <= j < |s| ==> s[j] == s[1..][j - 1];
    i := k + 1;
  }
}
