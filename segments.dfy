/**
 * The segment builder of the elevation callback: samples are grouped in
 * threes; the first two locations of a group form a pair, the third sample
 * closes it (its location is dropped, only its colour is used). From the third
 * pair on, a bridge from the previous pair's end to the new pair's start is
 * pushed first. The colour list starts with a grey entry, so `path[i]` is
 * drawn with a colour shifted by one.
 *
 * The reference below describes `path` and `colors` by position; the method
 * `BuildSegments` is the loop that builds them and is proved to produce them.
 */
module Segments {
  import opened Elevation
  import opened Colors

  /** A two-point polyline path, the `[a, b]` arrays pushed onto `path`. */
  datatype Segment<L> = Segment(from: L, to: L)

  /** A drawn polyline: its two points and its stroke colour. */
  datatype Polyline<L> = Polyline(path: Segment<L>, strokeColor: string)

  /** The colour the list starts with. */
  const Grey := "#ccc"

  /** Length of `path` once `k` pairs have been closed: no bridge precedes the first two. */
  function PathLength(k: nat): nat {
    if k <= 2 then k else 2 * k - 2
  }

  /** Where pair `j` sits in `path`. */
  function PairIndex(j: nat): nat {
    if j < 2 then j else 2 * j - 1
  }

  /** Where the bridge in front of pair `j` (j >= 2) sits in `path`. */
  function BridgeIndex(j: nat): nat
    requires j >= 2
  {
    2 * j - 2
  }

  /** Pair `j`: the locations of samples 3j and 3j+1. */
  function PairAt<L>(s: seq<Sample<L>>, j: nat): Segment<L>
    requires 3 * j + 1 < |s|
  {
    Segment(s[3 * j].location, s[3 * j + 1].location)
  }

  /** The bridge in front of pair `j`: from the end of pair j-1 to the start of pair j. */
  function BridgeAt<L>(s: seq<Sample<L>>, j: nat): Segment<L>
    requires 2 <= j && 3 * j < |s|
  {
    Segment(s[3 * j - 2].location, s[3 * j].location)
  }

  /** Colour of the sample that closes pair `j`. */
  function ClosingColor<L>(s: seq<Sample<L>>, minElevation: real, j: nat): string
    requires 3 * j + 2 < |s|
  {
    ElevationColor(s[3 * j + 2].elevation, minElevation)
  }

  /** Entry `i` of `path` once `k` pairs have been closed. */
  function PathEntry<L>(s: seq<Sample<L>>, k: nat, i: nat): Segment<L>
    requires 3 * k <= |s| && i < PathLength(k)
  {
    if i < 2 then PairAt(s, i)
    else if i % 2 == 0 then BridgeAt(s, i / 2 + 1)
    else PairAt(s, (i + 1) / 2)
  }

  /** Which pair's closing sample supplies `colors[i]`, for i >= 1. */
  function ColorSource(i: nat): nat
    requires i >= 1
  {
    if i <= 2 then i - 1 else (i + 1) / 2
  }

  /** Entry `i` of `colors` once `k` pairs have been closed. */
  function ColorEntry<L>(s: seq<Sample<L>>, minElevation: real, k: nat, i: nat): string
    requires 3 * k <= |s| && i <= PathLength(k)
  {
    if i == 0 then Grey else ClosingColor(s, minElevation, ColorSource(i))
  }

  /** `path` after the first `k` groups of three samples. */
  function PathAfter<L>(s: seq<Sample<L>>, k: nat): (p: seq<Segment<L>>)
    requires 3 * k <= |s|
  {
    seq(PathLength(k), i requires 0 <= i < PathLength(k) => PathEntry(s, k, i))
  }

  /** `colors` after the first `k` groups of three samples. */
  function ColorsAfter<L>(s: seq<Sample<L>>, minElevation: real, k: nat): (c: seq<string>)
    requires 3 * k <= |s|
  {
    seq(PathLength(k) + 1, i requires 0 <= i < PathLength(k) + 1 => ColorEntry(s, minElevation, k, i))
  }

  /** The `path` the callback builds from the whole response; a trailing group of fewer than three is dropped. */
  function SegmentPath<L>(s: seq<Sample<L>>): seq<Segment<L>> {
    PathAfter(s, |s| / 3)
  }

  /** The `colors` the callback builds from the whole response. */
  function SegmentColors<L>(s: seq<Sample<L>>, minElevation: real): seq<string> {
    ColorsAfter(s, minElevation, |s| / 3)
  }

  /** Pair j sits at `PairIndex(j)` for every k > j. */
  lemma PairPlaced<L>(s: seq<Sample<L>>, k: nat, j: nat)
    requires 3 * k <= |s| && j < k
    ensures PairIndex(j) < PathLength(k) && PathEntry(s, k, PairIndex(j)) == PairAt(s, j)
    ensures SlotOf(PairIndex(j)) == PairSlot(j)
  {
  }

  /** The bridge in front of pair j sits at `BridgeIndex(j)` for every k > j. */
  lemma BridgePlaced<L>(s: seq<Sample<L>>, k: nat, j: nat)
    requires 3 * k <= |s| && 2 <= j < k
    ensures BridgeIndex(j) < PathLength(k) && PathEntry(s, k, BridgeIndex(j)) == BridgeAt(s, j)
    ensures SlotOf(BridgeIndex(j)) == BridgeSlot(j)
  {
  }

  /** Closing group k appends (a bridge, when k >= 2, and) pair k to `path`. */
  lemma PathStep<L>(s: seq<Sample<L>>, k: nat)
    requires 3 * k + 3 <= |s|
    ensures PathAfter(s, k + 1) ==
      PathAfter(s, k) + (if k >= 2 then [BridgeAt(s, k)] else []) + [PairAt(s, k)]
  {
  }

  /** Closing group k appends its colour to `colors`, twice when a bridge was pushed. */
  lemma ColorsStep<L>(s: seq<Sample<L>>, minElevation: real, k: nat)
    requires 3 * k + 3 <= |s|
    ensures ColorsAfter(s, minElevation, k + 1) ==
      ColorsAfter(s, minElevation, k)
      + (if k >= 2 then [ClosingColor(s, minElevation, k)] else [])
      + [ClosingColor(s, minElevation, k)]
  {
  }

  /** With two pairs or more, `path` ends with the last pair, which ends at sample 3k-2. */
  lemma LastPairEnd<L>(s: seq<Sample<L>>, k: nat)
    requires 2 <= k && 3 * k <= |s|
    ensures |PathAfter(s, k)| == PathLength(k) > 1
    ensures PathAfter(s, k)[PathLength(k) - 1].to == s[3 * k - 2].location
  {
  }

  /**
   * One closing step of the loop, in the loop's own terms: with `path` and
   * `colors` as after k groups and the pair (a, b) waiting, pushing the bridge
   * (when `path` has more than one entry) and the pair gives the state after
   * k+1 groups.
   */
  lemma CloseGroup<L>(s: seq<Sample<L>>, minElevation: real, k: nat,
                      path: seq<Segment<L>>, colors: seq<string>, a: L, b: L, color: string)
    requires 3 * k + 3 <= |s|
    requires path == PathAfter(s, k) && colors == ColorsAfter(s, minElevation, k)
    requires a == s[3 * k].location && b == s[3 * k + 1].location
    requires color == ElevationColor(s[3 * k + 2].elevation, minElevation)
    ensures |path| > 1 ==>
      PathAfter(s, k + 1) == path + [Segment(path[|path| - 1].to, a)] + [Segment(a, b)]
      && ColorsAfter(s, minElevation, k + 1) == colors + [color] + [color]
    ensures |path| <= 1 ==>
      PathAfter(s, k + 1) == path + [Segment(a, b)]
      && ColorsAfter(s, minElevation, k + 1) == colors + [color]
  {
    PathStep(s, k);
    ColorsStep(s, minElevation, k);
    assert |path| == PathLength(k);
    if k >= 2 {
      LastPairEnd(s, k);
    }
  }

  /**
   * The `forEach` over the elevation samples. Every sample's colour is
   * computed; a sample that finds two locations waiting closes the pair.
   */
  method BuildSegments<L>(s: seq<Sample<L>>, minElevation: real)
    returns (path: seq<Segment<L>>, colors: seq<string>)
    ensures path == SegmentPath(s)
    ensures colors == SegmentColors(s, minElevation)
    ensures |colors| == |path| + 1 && colors[0] == Grey
  {
    path := [];
    colors := [Grey];
    var currentPair: seq<L> := [];
    var i := 0;
    ghost var k: nat := 0;
    while i < |s|
      invariant 0 <= i <= |s|
      invariant i == 3 * k + |currentPair| && |currentPair| < 3
      invariant path == PathAfter(s, k)
      invariant colors == ColorsAfter(s, minElevation, k)
      invariant forall t :: 0 <= t < |currentPair| ==> currentPair[t] == s[3 * k + t].location
    {
      var color := ElevationColor(s[i].elevation, minElevation);
      if |currentPair| < 2 {
        currentPair := currentPair + [s[i].location];
      } else {
        CloseGroup(s, minElevation, k, path, colors, currentPair[0], currentPair[1], color);
        if |path| > 1 {
          path := path + [Segment(path[|path| - 1].to, currentPair[0])];
          colors := colors + [color];
        }
        colors := colors + [color];
        path := path + [Segment(currentPair[0], currentPair[1])];
        currentPair := [];
        k := k + 1;
      }
      i := i + 1;
    }
    assert k == |s| / 3;
  }

  /** What entry `i` of `path` is: pair `j`, or the bridge in front of pair `j`. */
  datatype Slot = PairSlot(pair: nat) | BridgeSlot(pair: nat)

  /** The slot of entry `i`, the inverse of `PairIndex` and `BridgeIndex`. */
  function SlotOf(i: nat): Slot {
    if i < 2 then PairSlot(i)
    else if i % 2 == 0 then BridgeSlot(i / 2 + 1)
    else PairSlot((i + 1) / 2)
  }

  /** Index of the sample whose location starts entry `i`. */
  function FromSample(i: nat): nat {
    match SlotOf(i)
    case PairSlot(j) => 3 * j
    case BridgeSlot(j) => 3 * j - 2
  }

  /** Index of the sample whose location ends entry `i`. */
  function ToSample(i: nat): nat {
    match SlotOf(i)
    case PairSlot(j) => 3 * j + 1
    case BridgeSlot(j) => 3 * j
  }

  /**
   * Shape of `path` after k closed groups: k pairs, pair j taken from samples
   * 3j and 3j+1, a bridge in front of every pair from the third on, and
   * nothing else.
   */
  lemma {:induction false} PairsAndBridgesAfter<L>(s: seq<Sample<L>>, k: nat)
    requires 3 * k <= |s|
    ensures var p := PathAfter(s, k);
      |p| == k + (if k > 2 then k - 2 else 0)
      && (forall j :: 0 <= j < k ==>
            PairIndex(j) < |p| && SlotOf(PairIndex(j)) == PairSlot(j) && p[PairIndex(j)] == PairAt(s, j))
      && (forall j :: 2 <= j < k ==>
            BridgeIndex(j) < |p| && SlotOf(BridgeIndex(j)) == BridgeSlot(j) && p[BridgeIndex(j)] == BridgeAt(s, j))
      && (forall i :: 0 <= i < |p| ==>
            match SlotOf(i)
            case PairSlot(j) => j < k && PairIndex(j) == i
            case BridgeSlot(j) => 2 <= j < k && BridgeIndex(j) == i)
  {
    var p := PathAfter(s, k);
    forall j | 0 <= j < k
      ensures PairIndex(j) < |p| && SlotOf(PairIndex(j)) == PairSlot(j) && p[PairIndex(j)] == PairAt(s, j)
    {
      PairPlaced(s, k, j);
      assert p[PairIndex(j)] == PathEntry(s, k, PairIndex(j));
    }
    forall j | 2 <= j < k
      ensures BridgeIndex(j) < |p| && SlotOf(BridgeIndex(j)) == BridgeSlot(j) && p[BridgeIndex(j)] == BridgeAt(s, j)
    {
      BridgePlaced(s, k, j);
      assert p[BridgeIndex(j)] == PathEntry(s, k, BridgeIndex(j));
    }
    forall i | 0 <= i < |p|
      ensures match SlotOf(i)
        case PairSlot(j) => j < k && PairIndex(j) == i
        case BridgeSlot(j) => 2 <= j < k && BridgeIndex(j) == i
    {
      SlotCovers(k, i);
    }
  }

  /** Every position before `PathLength(k)` decodes to a pair or bridge of the first k groups, and back. */
  lemma SlotCovers(k: nat, i: nat)
    requires i < PathLength(k)
    ensures match SlotOf(i)
      case PairSlot(j) => j < k && PairIndex(j) == i
      case BridgeSlot(j) => 2 <= j < k && BridgeIndex(j) == i
  {
  }

  /** The shape of the whole `path`: exactly n/3 pairs for n samples, plus the bridges. */
  lemma PairsAndBridges<L>(s: seq<Sample<L>>)
    ensures var k := |s| / 3; var p := SegmentPath(s);
      |p| == k + (if k > 2 then k - 2 else 0)
      && (forall j :: 0 <= j < k ==> PairIndex(j) < |p| && p[PairIndex(j)] == PairAt(s, j))
      && (forall j :: 2 <= j < k ==> BridgeIndex(j) < |p| && p[BridgeIndex(j)] == BridgeAt(s, j))
  {
    PairsAndBridgesAfter(s, |s| / 3);
  }

  /**
   * Every point of `path` after k groups is the location of a sample inside
   * those groups that is not the third of its group.
   */
  lemma {:induction false} PointsComeFromPairSamplesAfter<L>(s: seq<Sample<L>>, k: nat)
    requires 3 * k <= |s|
    ensures forall i :: 0 <= i < |PathAfter(s, k)| ==>
      FromSample(i) < 3 * k && FromSample(i) % 3 != 2 && PathAfter(s, k)[i].from == s[FromSample(i)].location
      && ToSample(i) < 3 * k && ToSample(i) % 3 != 2 && PathAfter(s, k)[i].to == s[ToSample(i)].location
  {
  }

  /** The endpoints of entry i are the locations of samples `FromSample(i)` and `ToSample(i)`. */
  lemma PointsAt<L>(s: seq<Sample<L>>, k: nat, i: nat)
    requires 3 * k <= |s| && i < PathLength(k)
    ensures FromSample(i) < 3 * k && FromSample(i) % 3 != 2 && PathEntry(s, k, i).from == s[FromSample(i)].location
    ensures ToSample(i) < 3 * k && ToSample(i) % 3 != 2 && PathEntry(s, k, i).to == s[ToSample(i)].location
  {
  }

  /**
   * Every point of the whole `path` is the location of a sample that is not
   * the third of its group and lies in a complete group: the closing samples
   * and the trailing incomplete pair contribute no point.
   */
  lemma PointsComeFromPairSamples<L>(s: seq<Sample<L>>)
    ensures forall i :: 0 <= i < |SegmentPath(s)| ==>
      FromSample(i) < 3 * (|s| / 3) && FromSample(i) % 3 != 2 && SegmentPath(s)[i].from == s[FromSample(i)].location
      && ToSample(i) < 3 * (|s| / 3) && ToSample(i) % 3 != 2 && SegmentPath(s)[i].to == s[ToSample(i)].location
  {
    PointsComeFromPairSamplesAfter(s, |s| / 3);
  }

  /** Entry i ends where entry i+1 starts, for every i from 1 on. */
  lemma ContinuousAt<L>(s: seq<Sample<L>>, k: nat, i: nat)
    requires 3 * k <= |s| && 1 <= i && i + 1 < PathLength(k)
    ensures PathEntry(s, k, i).to == PathEntry(s, k, i + 1).from
  {
  }

  /**
   * From its second entry on, `path` is a continuous line: each segment
   * starts where the previous one ends. The first two pairs are not bridged,
   * so between `path[0]` and `path[1]` there is a gap from sample 1 to sample 3.
   */
  lemma {:induction false} ContinuousFromSecondPair<L>(s: seq<Sample<L>>, k: nat)
    requires 3 * k <= |s|
    ensures forall i :: 1 <= i < |PathAfter(s, k)| - 1 ==>
      PathAfter(s, k)[i].to == PathAfter(s, k)[i + 1].from
    ensures |PathAfter(s, k)| >= 2 ==>
      PathAfter(s, k)[0].to == s[1].location && PathAfter(s, k)[1].from == s[3].location
  {
  }

  /**
   * The colour list after k groups: one entry more than `path`, grey first;
   * pair 0's closing colour next, pair 1's after it, and from pair 2 on each
   * closing colour twice, the first copy being the one the bridge added.
   */
  lemma {:induction false} ColorLayout<L>(s: seq<Sample<L>>, minElevation: real, k: nat)
    requires 3 * k <= |s|
    ensures var c := ColorsAfter(s, minElevation, k);
      |c| == |PathAfter(s, k)| + 1 && c[0] == Grey
      && (k >= 1 ==> c[1] == ClosingColor(s, minElevation, 0))
      && (k >= 2 ==> c[2] == ClosingColor(s, minElevation, 1))
      && (forall j :: 2 <= j < k ==>
            c[2 * j - 1] == ClosingColor(s, minElevation, j) && c[2 * j] == ClosingColor(s, minElevation, j))
  {
  }

  /** The polylines `routePaths` receives: `path[i]` stroked with `colors[i]`, one per path entry. */
  ghost predicate DrawnFrom<L>(lines: seq<Polyline<L>>, path: seq<Segment<L>>, colors: seq<string>) {
    |lines| == |path| <= |colors|
    && forall i :: 0 <= i < |lines| ==> lines[i] == Polyline(path[i], colors[i])
  }

  /** The `forEach` over `path`: one polyline per entry, stroked with the colour at the same index. */
  method MakePolylines<L>(path: seq<Segment<L>>, colors: seq<string>) returns (lines: seq<Polyline<L>>)
    requires |path| <= |colors|
    ensures DrawnFrom(lines, path, colors)
  {
    lines := [];
    for i := 0 to |path|
      invariant |lines| == i
      invariant forall t :: 0 <= t < i ==> lines[t] == Polyline(path[t], colors[t])
    {
      lines := lines + [Polyline(path[i], colors[i])];
    }
  }

  /**
   * Colours actually drawn: the first pair is always grey, the second pair
   * takes the first pair's closing colour, from the third pair on each pair
   * takes its own closing colour, and each bridge takes the previous pair's.
   */
  lemma {:induction false} DrawnColors<L>(s: seq<Sample<L>>, minElevation: real, lines: seq<Polyline<L>>)
    requires DrawnFrom(lines, SegmentPath(s), SegmentColors(s, minElevation))
    ensures |lines| > 0 ==> lines[0] == Polyline(PairAt(s, 0), Grey)
    ensures |lines| > 1 ==> lines[1] == Polyline(PairAt(s, 1), ClosingColor(s, minElevation, 0))
    ensures forall j :: 2 <= j < |s| / 3 ==>
      lines[PairIndex(j)] == Polyline(PairAt(s, j), ClosingColor(s, minElevation, j))
      && lines[BridgeIndex(j)] == Polyline(BridgeAt(s, j), ClosingColor(s, minElevation, j - 1))
  {
    var k := |s| / 3;
    var p := PathAfter(s, k);
    var c := ColorsAfter(s, minElevation, k);
    if |lines| > 0 {
      assert p[0] == PathEntry(s, k, 0) && c[0] == ColorEntry(s, minElevation, k, 0);
    }
    if |lines| > 1 {
      assert p[1] == PathEntry(s, k, 1) && c[1] == ColorEntry(s, minElevation, k, 1);
    }
    forall j | 2 <= j < k
      ensures lines[PairIndex(j)] == Polyline(PairAt(s, j), ClosingColor(s, minElevation, j))
      && lines[BridgeIndex(j)] == Polyline(BridgeAt(s, j), ClosingColor(s, minElevation, j - 1))
    {
      DrawnAt(s, minElevation, k, lines, j);
    }
  }

  /** Pair j >= 2 and its bridge as drawn. */
  lemma DrawnAt<L>(s: seq<Sample<L>>, minElevation: real, k: nat, lines: seq<Polyline<L>>, j: nat)
    requires 3 * k <= |s| && 2 <= j < k
    requires DrawnFrom(lines, PathAfter(s, k), ColorsAfter(s, minElevation, k))
    ensures lines[PairIndex(j)] == Polyline(PairAt(s, j), ClosingColor(s, minElevation, j))
    ensures lines[BridgeIndex(j)] == Polyline(BridgeAt(s, j), ClosingColor(s, minElevation, j - 1))
  {
    var p := PathAfter(s, k);
    var c := ColorsAfter(s, minElevation, k);
    PairPlaced(s, k, j);
    BridgePlaced(s, k, j);
    assert p[PairIndex(j)] == PathEntry(s, k, PairIndex(j));
    assert p[BridgeIndex(j)] == PathEntry(s, k, BridgeIndex(j));
    assert c[PairIndex(j)] == ColorEntry(s, minElevation, k, PairIndex(j));
    assert c[BridgeIndex(j)] == ColorEntry(s, minElevation, k, BridgeIndex(j));
    assert ColorSource(BridgeIndex(j)) == j - 1;
    assert ColorSource(PairIndex(j)) == j;
  }

  /** A response of 4 samples yields one pair, drawn grey; the fourth sample is dropped. */
  lemma FourSamples<L>(a: L, b: L, c: L, d: L, ea: real, eb: real, ec: real, ed: real, m: real)
    ensures var s := [Sample(a, ea), Sample(b, eb), Sample(c, ec), Sample(d, ed)];
      SegmentPath(s) == [Segment(a, b)]
      && SegmentColors(s, m) == [Grey, ElevationColor(ec, m)]
  {
  }
}
