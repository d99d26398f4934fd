/**
 `plot_hist_forecast_band`: the band-overlay chart of a macro series. The
 drawing calls are represented by the data they draw: the expected-range
 band, the reference line, the historical and forecast lines, the dashed
 connector between them, the x-axis ticks and the legend entries.
 */
module BandChart {
  import opened Wrappers
  import opened Sequences
  import opened Labels
  import opened Clean

  /** The segment a row's `Type` label places it in; an empty cell is in neither. */
  function RowSegment(r: Row): Segment {
    match r.kind
    case Some(t) => Classify(t)
    case None => Other
  }

  predicate IsHistorical(r: Row) {
    RowSegment(r) == Historical
  }

  predicate IsForecast(r: Row) {
    RowSegment(r) == Forecast
  }

  /** The historical and the forecast rows of a cleaned table. */
  datatype Split = Split(hist: seq<Row>, fcst: seq<Row>)

  /**
   Splits a cleaned table by its `Type` labels; a table without that column
   is all historical.
   */
  function Partition(df: Frame): Split {
    if df.hasType then Split(Filter(df.rows, IsHistorical), Filter(df.rows, IsForecast))
    else Split(df.rows, [])
  }

  /**
   With a `Type` column, `hist` holds exactly the rows labelled historical and
   `fcst` exactly those labelled forecast, each as often as in the table;
   without one, `hist` is the whole table and `fcst` is empty.
   */
  lemma PartitionSelects(df: Frame)
    ensures df.hasType ==> forall r :: multiset(Partition(df).hist)[r] == if IsHistorical(r) then multiset(df.rows)[r] else 0
    ensures df.hasType ==> forall r :: multiset(Partition(df).fcst)[r] == if IsForecast(r) then multiset(df.rows)[r] else 0
    ensures !df.hasType ==> Partition(df).hist == df.rows && Partition(df).fcst == []
  {
    FilterCounts(df.rows, IsHistorical);
    FilterCounts(df.rows, IsForecast);
  }

  /** No row is in both parts, and a row labelled anything else is in neither. */
  lemma PartitionDisjoint(df: Frame, r: Row)
    ensures !(r in Partition(df).hist && r in Partition(df).fcst)
    ensures df.hasType && RowSegment(r) == Other ==> r !in Partition(df).hist && r !in Partition(df).fcst
  {
    PartitionSelects(df);
    if df.hasType {
      assert r in Partition(df).hist ==> r in multiset(Partition(df).hist);
      assert r in Partition(df).fcst ==> r in multiset(Partition(df).fcst);
    }
  }

  /** Both parts keep the table's order, so both are sorted by year when the table is. */
  lemma PartitionKeepsOrder(df: Frame)
    ensures IsSubsequence(Partition(df).hist, df.rows)
    ensures IsSubsequence(Partition(df).fcst, df.rows)
    ensures SortedBy(df.rows, YearKey) ==> SortedBy(Partition(df).hist, YearKey) && SortedBy(Partition(df).fcst, YearKey)
  {
    if df.hasType {
      FilterIsSubsequence(df.rows, IsHistorical);
      FilterIsSubsequence(df.rows, IsForecast);
      if SortedBy(df.rows, YearKey) {
        FilterKeepsSorted(df.rows, IsHistorical, YearKey);
        FilterKeepsSorted(df.rows, IsForecast, YearKey);
      }
    } else {
      SubsequenceOfItself(df.rows);
    }
  }

  lemma {:induction false} SubsequenceOfItself(s: seq<Row>)
    ensures IsSubsequence(s, s)
  {
    if s != [] {
      SubsequenceOfItself(s[1..]);
    }
  }

  /**
   End to end: a usable row whose `Type` label is any case variant of
   "historical" or "forecast", with any whitespace around it, is drawn in
   that part of the chart, carrying its label without the whitespace.
   */
  lemma PaddedLabelLandsInItsPart(df: Frame, i: nat, p: string, t: string, q: string, g: Segment)
    requires df.hasType && i < |df.rows| && Complete(df.rows[i])
    requires df.rows[i].kind == Some(p + t + q) && AllSpace(p) && AllSpace(q)
    requires g != Other && Lower(t) == Keyword(g)
    ensures StripKind(df.rows[i]).kind == Some(t)
    ensures g == Historical ==> StripKind(df.rows[i]) in Partition(Cleaned(df)).hist
    ensures g == Forecast ==> StripKind(df.rows[i]) in Partition(Cleaned(df)).fcst
  {
    var r := StripKind(df.rows[i]);
    StrippedKeyword(p, t, q, g);
    CompleteRowSurvives(df, i);
    RowInItsPart(Cleaned(df), r);
  }

  lemma StrippedKeyword(p: string, t: string, q: string, g: Segment)
    requires AllSpace(p) && AllSpace(q) && g != Other && Lower(t) == Keyword(g)
    ensures Strip(p + t + q) == t && Classify(t) == g
  {
    PaddedLabelClassified(p, t, q, g);
    assert LowerChar(t[0]) == Keyword(g)[0];
    assert LowerChar(t[|t| - 1]) == Keyword(g)[|t| - 1];
    StripPadding(p, t, q);
  }

  /** A row of a table with a `Type` column lands in the part its label names. */
  lemma RowInItsPart(df: Frame, r: Row)
    requires df.hasType && r in df.rows
    ensures IsHistorical(r) ==> r in Partition(df).hist
    ensures IsForecast(r) ==> r in Partition(df).fcst
  {
    assert r in multiset(df.rows);
    PartitionSelects(df);
    if IsHistorical(r) {
      assert r in multiset(Partition(df).hist);
    } else if IsForecast(r) {
      assert r in multiset(Partition(df).fcst);
    }
  }

  /** The expected-range band drawn by `axhspan`. */
  datatype Band = Band(lower: real, upper: real)

  /** The band of the given center and width. */
  function BandBounds(center: real, width: real): (b: Band)
    ensures b.upper - b.lower == width
    ensures (b.lower + b.upper) / 2.0 == center
    ensures 0.0 <= width ==> b.lower <= center <= b.upper
  {
    Band(center - width / 2.0, center + width / 2.0)
  }

  function BandCenter(b: Band): real {
    (b.lower + b.upper) / 2.0
  }

  function BandWidth(b: Band): real {
    b.upper - b.lower
  }

  /** A band is recovered from its center and width. */
  lemma BandRoundTrip(b: Band)
    ensures BandBounds(BandCenter(b), BandWidth(b)) == b
  {
  }

  /** A point drawn on the chart. */
  datatype Point = Point(year: int, value: real)

  function PointOf(r: Row): Point {
    Point(YearOf(r), ValueOf(r))
  }

  function Points(rows: seq<Row>): (ps: seq<Point>)
    ensures |ps| == |rows|
  {
    seq(|rows|, i requires 0 <= i < |rows| => PointOf(rows[i]))
  }

  /** A line over `rows`, drawn only when there is something to draw. */
  function Line(rows: seq<Row>): Option<seq<Point>> {
    if rows == [] then None else Some(Points(rows))
  }

  /** The dashed segment from the last historical point to the first forecast point. */
  function Connector(s: Split): Option<(Point, Point)> {
    if s.hist != [] && s.fcst != [] then Some((PointOf(s.hist[|s.hist| - 1]), PointOf(s.fcst[0])))
    else None
  }

  /**
   For a table sorted by year, the connector runs from a historical point
   with the latest historical year to a forecast point with the earliest
   forecast year, and it exists exactly when both parts do.
   */
  lemma ConnectorJoinsLatestToEarliest(df: Frame)
    requires SortedBy(df.rows, YearKey)
    ensures Connector(Partition(df)).Some? <==> Partition(df).hist != [] && Partition(df).fcst != []
    ensures Connector(Partition(df)).Some? ==>
      var (from, to) := Connector(Partition(df)).value;
      && (exists r :: r in Partition(df).hist && PointOf(r) == from)
      && (exists r :: r in Partition(df).fcst && PointOf(r) == to)
      && (forall r :: r in Partition(df).hist ==> YearOf(r) <= from.year)
      && (forall r :: r in Partition(df).fcst ==> to.year <= YearOf(r))
  {
    PartitionKeepsOrder(df);
    var s := Partition(df);
    if s.hist != [] && s.fcst != [] {
      var h, f := s.hist[|s.hist| - 1], s.fcst[0];
      assert h in s.hist && f in s.fcst;
      forall r | r in s.hist ensures YearOf(r) <= YearOf(h) {
        var i :| 0 <= i < |s.hist| && s.hist[i] == r;
        assert i < |s.hist| - 1 ==> YearKey(r) <= YearKey(h);
      }
      forall r | r in s.fcst ensures YearOf(f) <= YearOf(r) {
        var i :| 0 <= i < |s.fcst| && s.fcst[i] == r;
        assert 0 < i ==> YearKey(f) <= YearKey(r);
      }
    }
  }

  /** What the band-overlay chart shows. */
  datatype Chart = Chart(
    band: Band,
    referenceLine: real,
    historical: Option<seq<Point>>,
    forecast: Option<seq<Point>>,
    connector: Option<(Point, Point)>,
    xTicks: seq<int>,
    legend: seq<string>)

  /** The chart drawn for an already cleaned table. */
  function Render(cleaned: Frame, center: real, width: real): Chart {
    var s := Partition(cleaned);
    Chart(
      BandBounds(center, width),
      center,
      Line(s.hist),
      Line(s.fcst),
      Connector(s),
      seq(|cleaned.rows|, i requires 0 <= i < |cleaned.rows| => YearOf(cleaned.rows[i])),
      ["Expected Range"]
        + (if s.hist != [] then ["Historical"] else [])
        + (if s.fcst != [] then ["Forecast (to 2030)"] else []))
  }

  /**
   `plot_hist_forecast_band(df, year_col, value_col, title, y_label,
   band_center, band_width)`: cleans the table and draws its chart.
   */
  method PlotHistForecastBand(df: Frame, center: real, width: real) returns (chart: Chart)
    ensures chart == Render(Cleaned(df), center, width)
  {
    var cleaned := CleanMacro(df);
    chart := Render(cleaned, center, width);
  }

  /**
   Whatever the data, the band spans `[center - width/2, center + width/2]`
   with the reference line at its center; each part is drawn, with its
   points in order, exactly when it is non-empty; the connector exists
   exactly when both parts do; the legend names what is drawn.
   */
  lemma RenderShows(cleaned: Frame, center: real, width: real)
    ensures var c := Render(cleaned, center, width);
      && c.band.lower == center - width / 2.0 && c.band.upper == center + width / 2.0
      && c.referenceLine == center
      && (c.historical.Some? <==> Partition(cleaned).hist != [])
      && (c.forecast.Some? <==> Partition(cleaned).fcst != [])
      && (c.historical.Some? ==> c.historical.value == Points(Partition(cleaned).hist))
      && (c.forecast.Some? ==> c.forecast.value == Points(Partition(cleaned).fcst))
      && (c.connector.Some? <==> c.historical.Some? && c.forecast.Some?)
      && c.legend[0] == "Expected Range"
      && ("Historical" in c.legend <==> c.historical.Some?)
      && ("Forecast (to 2030)" in c.legend <==> c.forecast.Some?)
  {
  }

  /**
   The x-axis ticks of any table's chart are the cleaned years, one per row
   and in ascending order; as a multiset they are the years of the rows of
   the caller's table whose year and value coerced.
   */
  lemma PlotTicksAscending(df: Frame, center: real, width: real)
    ensures var ticks := Render(Cleaned(df), center, width).xTicks;
      && ticks == Map(Cleaned(df).rows, YearOf)
      && multiset(ticks) == multiset(Map(Filter(df.rows, Complete), YearOf))
      && forall i, j :: 0 <= i < j < |ticks| ==> ticks[i] <= ticks[j]
  {
    var cleaned := Cleaned(df);
    var ticks := Render(cleaned, center, width).xTicks;
    assert ticks == Map(cleaned.rows, YearOf);
    CleanedYears(df);
    forall i, j | 0 <= i < j < |ticks| ensures ticks[i] <= ticks[j] {
      assert YearKey(cleaned.rows[i]) <= YearKey(cleaned.rows[j]);
    }
  }

  /** Every point the chart draws has a tick at its year. */
  lemma DrawnPointsHaveTicks(cleaned: Frame, center: real, width: real)
    ensures var c := Render(cleaned, center, width);
      && (c.historical.Some? ==> forall p :: p in c.historical.value ==> p.year in c.xTicks)
      && (c.forecast.Some? ==> forall p :: p in c.forecast.value ==> p.year in c.xTicks)
  {
    var c := Render(cleaned, center, width);
    var s := Partition(cleaned);
    forall p | c.historical.Some? && p in c.historical.value ensures p.year in c.xTicks {
      var k :| 0 <= k < |s.hist| && Points(s.hist)[k] == p;
      RowOfPartIsTick(cleaned, s.hist[k], c.xTicks);
    }
    forall p | c.forecast.Some? && p in c.forecast.value ensures p.year in c.xTicks {
      var k :| 0 <= k < |s.fcst| && Points(s.fcst)[k] == p;
      RowOfPartIsTick(cleaned, s.fcst[k], c.xTicks);
    }
  }

  lemma RowOfPartIsTick(cleaned: Frame, r: Row, ticks: seq<int>)
    requires r in Partition(cleaned).hist || r in Partition(cleaned).fcst
    requires ticks == seq(|cleaned.rows|, i requires 0 <= i < |cleaned.rows| => YearOf(cleaned.rows[i]))
    ensures YearOf(r) in ticks
  {
    PartitionSelects(cleaned);
    var s := Partition(cleaned);
    if r in s.hist {
      assert r in multiset(s.hist);
    } else {
      assert r in multiset(s.fcst);
    }
    assert r in multiset(cleaned.rows);
    var i :| 0 <= i < |cleaned.rows| && cleaned.rows[i] == r;
    assert ticks[i] == YearOf(r);
  }

  /**
   A table with no usable row draws only the band and the reference line:
   no line, no connector, no tick.
   */
  lemma EmptySeriesDrawsOnlyBand(df: Frame, center: real, width: real)
    requires Cleaned(df).rows == []
    ensures var c := Render(Cleaned(df), center, width);
      && c.historical == None && c.forecast == None && c.connector == None
      && c.xTicks == [] && c.legend == ["Expected Range"]
      && c.band == BandBounds(center, width)
  {
    var cleaned := Cleaned(df);
    assert Partition(cleaned).hist == [] && Partition(cleaned).fcst == [] by {
      if cleaned.hasType {
        FilterCounts(cleaned.rows, IsHistorical);
        FilterCounts(cleaned.rows, IsForecast);
      }
    }
  }

  /** A sidebar slider: its range, default and step. */
  datatype Slider = Slider(low: real, high: real, default: real, step: real)

  const GdpCenter := Slider(-2.0, 4.0, 0.5, 0.1)
  const GdpWidth := Slider(0.2, 6.0, 1.2, 0.1)
  const InflationCenter := Slider(0.0, 10.0, 2.0, 0.1)
  const InflationWidth := Slider(0.2, 10.0, 2.0, 0.1)
  const UnemploymentCenter := Slider(3.0, 12.0, 7.2, 0.1)
  const UnemploymentWidth := Slider(0.2, 8.0, 1.5, 0.1)

  /**
   Any width a width slider allows gives a band strictly around its center:
   the band is never empty or inverted.
   */
  lemma WidthSlidersKeepBandOrdered(s: Slider, center: real, width: real)
    requires s in [GdpWidth, InflationWidth, UnemploymentWidth]
    requires s.low <= width <= s.high
    ensures BandBounds(center, width).lower < center < BandBounds(center, width).upper
  {
  }
}
