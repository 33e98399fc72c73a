/**
 * The elevation chart: one column per elevation sample, coloured by the same
 * threshold rule against the response's own minimum; an empty sample list
 * clears the chart.
 */
module Chart {
  import opened Optional
  import opened Elevation
  import opened Colors

  /** One data-table row: the sample's elevation and its `style` cell. */
  datatype Bar = Bar(elevation: real, style: string)

  /** What the chart container shows. */
  datatype ChartView = Blank | Columns(bars: seq<Bar>)

  /** The style cell of a row drawn in colour `c`. */
  function StyleOf(c: string): string {
    "color: " + c
  }

  /** `view` is what plotting `samples` draws. */
  ghost predicate Shows<L>(view: ChartView, samples: seq<Sample<L>>) {
    if samples == [] then view == Blank
    else
      view.Columns? && |view.bars| == |samples|
      && forall i :: 0 <= i < |samples| ==>
           view.bars[i] == Bar(samples[i].elevation,
                               StyleOf(ElevationColor(samples[i].elevation, MinElevation(samples))))
  }

  /**
   * Every column of a drawn chart has one of the four threshold colours, and
   * the lowest sample's column is green.
   */
  lemma {:induction false} ColumnsAreThresholdColored<L>(view: ChartView, samples: seq<Sample<L>>)
    requires Shows(view, samples) && samples != []
    ensures forall i :: 0 <= i < |view.bars| ==>
      exists c :: IsThresholdColor(c) && view.bars[i].style == StyleOf(c)
    ensures exists i :: 0 <= i < |view.bars| && view.bars[i].style == StyleOf(Green)
  {
    forall i | 0 <= i < |view.bars|
      ensures exists c :: IsThresholdColor(c) && view.bars[i].style == StyleOf(c)
    {
      var c := ElevationColor(samples[i].elevation, MinElevation(samples));
      assert IsThresholdColor(c) && view.bars[i].style == StyleOf(c);
    }
    var m := MinElevation(samples);
    var i :| 0 <= i < |samples| && samples[i].elevation == m;
    MinimumIsGreen(m);
    assert view.bars[i].style == StyleOf(Green);
  }

  /**
   * A response with elevations 5, 40, 80 and 5 charts as green, orange, red
   * and green columns.
   */
  lemma FourSampleChart<L>(a: L, b: L, c: L, d: L, view: ChartView)
    requires Shows(view, [Sample(a, 5.0), Sample(b, 40.0), Sample(c, 80.0), Sample(d, 5.0)])
    ensures view == Columns([Bar(5.0, StyleOf(Green)), Bar(40.0, StyleOf(Orange)),
                             Bar(80.0, StyleOf(Red)), Bar(5.0, StyleOf(Green))])
  {
    var s := [Sample(a, 5.0), Sample(b, 40.0), Sample(c, 80.0), Sample(d, 5.0)];
    var s0, s3 := Sample(a, 5.0), Sample(d, 5.0);
    assert MinFrom(s0, [s3]) == MinFrom(s3, []) == s3;
    assert MinFrom(s0, [Sample(c, 80.0), s3]) == MinFrom(s0, [s3]);
    assert MinFrom(s0, [Sample(b, 40.0), Sample(c, 80.0), s3]) == MinFrom(s0, [Sample(c, 80.0), s3]);
    assert s[1..] == [Sample(b, 40.0), Sample(c, 80.0), s3];
    assert ReduceMin(s) == Some(s3);
    assert MinElevation(s) == 5.0;
  }
}
