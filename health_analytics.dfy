/**
 * The health-analytics chart of the client (client/src/routes/HealthAnalytics.js):
 * from the dated probability records returned by /api/health-analytics and the
 * three metric check boxes it derives the x-axis labels, one data series per
 * selected metric and the upper bound of the y axis, choosing between one point
 * per record and one averaged point per calendar month. It also formats the
 * x-axis tick labels for narrow screens.
 */
module HealthAnalytics {
  import opened Wrappers
  import opened Strings
  import opened Sorting
  import opened Dates

  /**
   * One record as the client reads it: the date after `new Date(d.date)` (None
   * when the field is absent or the text does not parse), and each probability
   * as `Number(...)` reads it (None when that gives NaN).
   */
  datatype Observation = Observation(
    date: Option<DateParts>,
    stroke: Option<real>,
    cardio: Option<real>,
    diabetes: Option<real>)

  datatype Metric = Stroke | Cardio | Diabetes

  /** The three check boxes; all are ticked initially. */
  datatype Selection = Selection(stroke: bool, cardio: bool, diabetes: bool)

  const InitialSelection := Selection(true, true, true)

  /** A plotted x position: its label and the three metric values there. */
  datatype Point = Point(xLabel: string, stroke: real, cardio: real, diabetes: real)

  datatype Series = Series(metric: Metric, name: string, data: seq<real>)

  datatype Chart = Chart(labels: seq<string>, series: seq<Series>, yAxisMax: int)

  const EmptyChart := Chart([], [], 60)

  /** `(maxDate - minDate) / (1000 * 60 * 60 * 24)`: the span in days, exactly. */
  function DaysBetween(first: DateParts, last: DateParts): real {
    (last.time - first.time) as real / 86400000.0
  }

  /** `Number(x) || 0`: NaN and 0 both give 0. */
  function OrZero(v: Option<real>): (r: real)
    ensures v.None? ==> r == 0.0
    ensures v.Some? ==> r == v.value
  {
    match v
    case None => 0.0
    case Some(x) => x
  }

  function Field(o: Observation, m: Metric): Option<real> {
    match m
    case Stroke => o.stroke
    case Cardio => o.cardio
    case Diabetes => o.diabetes
  }

  function PointValue(p: Point, m: Metric): real {
    match m
    case Stroke => p.stroke
    case Cardio => p.cardio
    case Diabetes => p.diabetes
  }

  function SeriesLabel(m: Metric): string {
    match m
    case Stroke => "Stroke Probability (%)"
    case Cardio => "Cardio Probability (%)"
    case Diabetes => "Diabetes Probability (%)"
  }

  function IsSelected(sel: Selection, m: Metric): bool {
    match m
    case Stroke => sel.stroke
    case Cardio => sel.cardio
    case Diabetes => sel.diabetes
  }

  /** The selected metrics in the fixed order stroke, cardio, diabetes. */
  function SelectedMetrics(sel: Selection): (ms: seq<Metric>)
    ensures forall m :: m in ms <==> IsSelected(sel, m)
    ensures forall i, j :: 0 <= i < j < |ms| ==> MetricRank(ms[i]) < MetricRank(ms[j])
  {
    (if sel.stroke then [Stroke] else [])
      + (if sel.cardio then [Cardio] else [])
      + (if sel.diabetes then [Diabetes] else [])
  }

  function MetricRank(m: Metric): int {
    match m
    case Stroke => 0
    case Cardio => 1
    case Diabetes => 2
  }

  // ---------------------------------------------------------------------
  // Parsing, filtering and ordering the records

  predicate Dated(o: Observation) {
    o.date.Some?
  }

  predicate AllDated(p: seq<Observation>) {
    forall i :: 0 <= i < |p| ==> Dated(p[i])
  }

  /** The sort key `_dateObj` (its millisecond time). */
  function TimeKey(o: Observation): int {
    if o.date.Some? then o.date.value.time else 0
  }

  /** The grouping key `${y}-${m}`, as one number per calendar month. */
  function MonthKey(o: Observation): int {
    if o.date.Some? then MonthIndex(o.date.value.year, o.date.value.month) else 0
  }

  /** `.filter(d => d._dateObj && !isNaN(d._dateObj.getTime()))`. */
  function KeepDated(data: seq<Observation>): (r: seq<Observation>)
    ensures AllDated(r)
    ensures forall o :: o in r <==> o in data && Dated(o)
    ensures |r| <= |data|
  {
    if |data| == 0 then []
    else if Dated(data[0]) then [data[0]] + KeepDated(data[1..])
    else KeepDated(data[1..])
  }

  /** The dated records in ascending time order (a stable sort). */
  function Parsed(data: seq<Observation>): (p: seq<Observation>)
    ensures AllDated(p)
    ensures |p| == |KeepDated(data)|
  {
    var p := SortBy(KeepDated(data), TimeKey);
    assert forall i :: 0 <= i < |p| ==> p[i] in multiset(KeepDated(data));
    p
  }

  /** The parsed records are the dated ones, each kept once, in ascending time order. */
  lemma ParsedFacts(data: seq<Observation>)
    ensures SortedBy(Parsed(data), TimeKey)
    ensures forall i, j :: 0 <= i < j < |Parsed(data)| ==>
      Parsed(data)[i].date.value.time <= Parsed(data)[j].date.value.time
    ensures multiset(Parsed(data)) == multiset(KeepDated(data))
  {
    var p := Parsed(data);
    SortBySorted(KeepDated(data), TimeKey);
    forall i, j | 0 <= i < j < |p| ensures p[i].date.value.time <= p[j].date.value.time {
      assert TimeKey(p[i]) <= TimeKey(p[j]);
    }
  }

  /**
   * Monthly aggregation is needed when the first and last records lie in
   * different years, more than 180 days apart, or there are more than 20.
   */
  predicate NeedMonthly(p: seq<Observation>)
    requires |p| > 0 && AllDated(p)
  {
    var first := p[0].date.value;
    var last := p[|p| - 1].date.value;
    first.year != last.year
      || DaysBetween(first, last) > 180.0
      || |p| > 20
  }

  // ---------------------------------------------------------------------
  // Daily points

  function DailyPoint(o: Observation): Point
    requires Dated(o)
  {
    Point(DayLabel(o.date.value), OrZero(o.stroke), OrZero(o.cardio), OrZero(o.diabetes))
  }

  function DailyPoints(p: seq<Observation>): seq<Point>
    requires AllDated(p)
  {
    seq(|p|, i requires 0 <= i < |p| => DailyPoint(p[i]))
  }

  // ---------------------------------------------------------------------
  // Monthly points

  /** The month keys of p, each once, in order of first occurrence (the Map's insertion order). */
  function DistinctMonths(p: seq<Observation>): (ks: seq<int>)
    ensures forall k :: k in ks <==> exists i :: 0 <= i < |p| && MonthKey(p[i]) == k
    ensures forall i, j :: 0 <= i < j < |ks| ==> ks[i] != ks[j]
  {
    if |p| == 0 then []
    else
      var ks := DistinctMonths(p[..|p| - 1]);
      var k := MonthKey(p[|p| - 1]);
      assert forall i :: 0 <= i < |p| - 1 ==> p[..|p| - 1][i] == p[i];
      if k in ks then ks else ks + [k]
  }

  /** The records of month k, in the order they were pushed into its group. */
  function MonthItems(p: seq<Observation>, k: int): (items: seq<Observation>)
    ensures forall i :: 0 <= i < |items| ==> MonthKey(items[i]) == k
    ensures |items| <= |p|
  {
    if |p| == 0 then []
    else
      var last := p[|p| - 1];
      MonthItems(p[..|p| - 1], k) + (if MonthKey(last) == k then [last] else [])
  }

  /** `arr.reduce((sum, it) => sum + (Number(it[key]) || 0), 0)`. */
  function Sum(items: seq<Observation>, m: Metric): real {
    if |items| == 0 then 0.0 else Sum(items[..|items| - 1], m) + OrZero(Field(items[|items| - 1], m))
  }

  /** The sum divided by `items.length || 1`. */
  function Average(items: seq<Observation>, m: Metric): real {
    Sum(items, m) / (if |items| == 0 then 1 else |items|) as real
  }

  function Id(k: int): int {
    k
  }

  function GroupPoint(k: int, items: seq<Observation>): Point {
    Point(MonthLabel(k / 12, k % 12), Average(items, Stroke), Average(items, Cardio), Average(items, Diabetes))
  }

  /** The month keys sorted by year, then month. */
  function SortedMonths(p: seq<Observation>): seq<int> {
    SortBy(DistinctMonths(p), Id)
  }

  function MonthlyPoints(p: seq<Observation>): seq<Point> {
    var ks := SortedMonths(p);
    seq(|ks|, j requires 0 <= j < |ks| => GroupPoint(ks[j], MonthItems(p, ks[j])))
  }

  // ---------------------------------------------------------------------
  // Series, maximum and y-axis bound

  function SeriesFor(points: seq<Point>, m: Metric): Series {
    Series(m, SeriesLabel(m), seq(|points|, i requires 0 <= i < |points| => PointValue(points[i], m)))
  }

  function BuildSeries(points: seq<Point>, sel: Selection): seq<Series> {
    (if sel.stroke then [SeriesFor(points, Stroke)] else [])
      + (if sel.cardio then [SeriesFor(points, Cardio)] else [])
      + (if sel.diabetes then [SeriesFor(points, Diabetes)] else [])
  }

  function Max(a: real, b: real): real {
    if a >= b then a else b
  }

  function Min(a: real, b: real): real {
    if a <= b then a else b
  }

  /** `Math.max` folded over vs, starting from acc. */
  function MaxIn(acc: real, vs: seq<real>): (r: real)
    ensures acc <= r
    ensures forall i :: 0 <= i < |vs| ==> vs[i] <= r
  {
    if |vs| == 0 then acc else Max(MaxIn(acc, vs[..|vs| - 1]), vs[|vs| - 1])
  }

  /** The largest value plotted in any series, and at least 0. */
  function MaxOver(ss: seq<Series>): (r: real)
    ensures 0.0 <= r
    ensures forall i, j :: 0 <= i < |ss| && 0 <= j < |ss[i].data| ==> ss[i].data[j] <= r
  {
    if |ss| == 0 then 0.0 else MaxIn(MaxOver(ss[..|ss| - 1]), ss[|ss| - 1].data)
  }

  /** `Math.ceil`. */
  function Ceil(r: real): int {
    -((-r).Floor)
  }

  /** The padded maximum rounded up to a multiple of 10, kept within [10, 100]. */
  function YAxisMax(maxVal: real): int {
    var padded := Min(100.0, Max(0.0, maxVal + 5.0));
    var rounded := Ceil(padded / 10.0) * 10;
    if rounded < 10 then 10 else if rounded > 100 then 100 else rounded
  }

  // ---------------------------------------------------------------------
  // The derivation

  function Points(p: seq<Observation>): seq<Point>
    requires |p| > 0 && AllDated(p)
  {
    if NeedMonthly(p) then MonthlyPoints(p) else DailyPoints(p)
  }

  function Labels(points: seq<Point>): (ls: seq<string>)
    ensures |ls| == |points|
  {
    seq(|points|, i requires 0 <= i < |points| => points[i].xLabel)
  }

  /** The chart for the fetched records and the ticked metrics. */
  function ChartSpec(data: seq<Observation>, sel: Selection): Chart {
    var p := Parsed(data);
    if |data| == 0 || |p| == 0 then EmptyChart
    else
      var points := Points(p);
      var ss := BuildSeries(points, sel);
      Chart(Labels(points), ss, YAxisMax(MaxOver(ss)))
  }

  /** The grouping loop: a Map from month key to its records, filled in record order. */
  method GroupByMonth(parsed: seq<Observation>) returns (groups: map<int, seq<Observation>>, order: seq<int>)
    requires AllDated(parsed)
    ensures order == DistinctMonths(parsed)
    ensures forall k :: k in groups <==> k in order
    ensures forall k :: k in groups ==> groups[k] == MonthItems(parsed, k)
  {
    groups := map[];
    order := [];
    var i := 0;
    while i < |parsed|
      invariant 0 <= i <= |parsed|
      invariant Grouped(parsed[..i], groups, order)
    {
      var d := parsed[i];
      var key := MonthIndex(d.date.value.year, d.date.value.month);
      GroupStep(parsed, i, groups, order);
      var items := if key in groups then groups[key] else [];
      if key !in groups {
        order := order + [key];
      }
      groups := groups[key := items + [d]];
      i := i + 1;
    }
    assert parsed[..|parsed|] == parsed;
  }

  /** The loop's invariant: the Map holds each month of p seen so far, with its records, keys in insertion order. */
  ghost predicate Grouped(p: seq<Observation>, groups: map<int, seq<Observation>>, order: seq<int>) {
    && order == DistinctMonths(p)
    && (forall k :: k in groups <==> k in order)
    && (forall k :: k in groups ==> groups[k] == MonthItems(p, k))
    && (forall k :: k !in groups ==> MonthItems(p, k) == [])
  }

  /** One more record extends its month's group and, for a new month, the key order. */
  lemma GroupStep(p: seq<Observation>, i: int, groups: map<int, seq<Observation>>, order: seq<int>)
    requires 0 <= i < |p| && Grouped(p[..i], groups, order)
    ensures var k := MonthKey(p[i]);
      var items := if k in groups then groups[k] else [];
      Grouped(p[..i + 1], groups[k := items + [p[i]]], if k in groups then order else order + [k])
  {
    var q, x := p[..i], p[i];
    assert p[..i + 1] == q + [x];
    var k := MonthKey(x);
    var items := if k in groups then groups[k] else [];
    var g := groups[k := items + [x]];
    var o := if k in groups then order else order + [k];
    MonthsSnoc(q, x);
    assert o == DistinctMonths(q + [x]);
    assert forall k' :: k' in g <==> k' in o;
    forall k' | k' in g ensures g[k'] == MonthItems(q + [x], k') {
      if k' == k {
        assert g[k'] == items + [x];
      } else {
        assert g[k'] == groups[k'];
      }
    }
    forall k' | k' !in g ensures MonthItems(q + [x], k') == [] {
      assert k' != k && k' !in groups;
    }
    assert Grouped(q + [x], g, o);
  }

  /** One record appended: its month joins the key order if new, and its group gains it. */
  lemma MonthsSnoc(q: seq<Observation>, x: Observation)
    ensures var ks := DistinctMonths(q);
      DistinctMonths(q + [x]) == (if MonthKey(x) in ks then ks else ks + [MonthKey(x)])
    ensures forall k :: MonthItems(q + [x], k) == MonthItems(q, k) + (if MonthKey(x) == k then [x] else [])
  {
    assert (q + [x])[..|q|] == q;
  }

  /** Monthly mode: the groups sorted by year, then month, each turned into its averaged point. */
  method AggregateMonthly(parsed: seq<Observation>) returns (aggregated: seq<Point>)
    requires AllDated(parsed)
    ensures aggregated == MonthlyPoints(parsed)
  {
    var groups, order := GroupByMonth(parsed);
    var sortedKeys := SortBy(order, Id);
    SortedKeysGrouped(parsed, groups, order);
    aggregated := seq(|sortedKeys|, j requires 0 <= j < |sortedKeys| => GroupPoint(sortedKeys[j], groups[sortedKeys[j]]));
  }

  /** Every sorted key names a group, and the group holds that month's records. */
  lemma SortedKeysGrouped(parsed: seq<Observation>, groups: map<int, seq<Observation>>, order: seq<int>)
    requires order == DistinctMonths(parsed)
    requires forall k :: k in groups <==> k in order
    requires forall k :: k in groups ==> groups[k] == MonthItems(parsed, k)
    ensures SortBy(order, Id) == SortedMonths(parsed)
    ensures forall k :: k in SortBy(order, Id) ==> k in groups && groups[k] == MonthItems(parsed, k)
  {
    forall k | k in SortBy(order, Id) ensures k in groups {
      assert k in multiset(SortBy(order, Id));
    }
  }

  /** The `maxVal` loop over every value of every series. */
  method MaxPlotted(series: seq<Series>) returns (maxVal: real)
    ensures maxVal == MaxOver(series)
  {
    maxVal := 0.0;
    for si := 0 to |series|
      invariant maxVal == MaxOver(series[..si])
    {
      var s := series[si];
      for j := 0 to |s.data|
        invariant maxVal == MaxIn(MaxOver(series[..si]), s.data[..j])
      {
        assert s.data[..j + 1][..j] == s.data[..j];
        maxVal := Max(maxVal, s.data[j]);
      }
      assert s.data[..|s.data|] == s.data;
      assert series[..si + 1][..si] == series[..si];
    }
    assert series[..|series|] == series;
  }

  /** The chart derivation, step by step as the client computes it. */
  /** The reassignments of `working`: monthly groups for a long or cross-year range or many records, else one point per record. */
  method WorkingPoints(parsed: seq<Observation>) returns (working: seq<Point>)
    requires |parsed| > 0 && AllDated(parsed)
    ensures working == Points(parsed)
  {
    var minDate := parsed[0].date.value;
    var maxDate := parsed[|parsed| - 1].date.value;
    var crossYear := minDate.year != maxDate.year;
    var diffDays := DaysBetween(minDate, maxDate);
    if crossYear || diffDays > 180.0 || |parsed| > 20 {
      working := AggregateMonthly(parsed);
    } else {
      working := seq(|parsed|, j requires 0 <= j < |parsed| => DailyPoint(parsed[j]));
      assert working == DailyPoints(parsed);
    }
  }

  /** The conditional pushes onto `series`, in the order stroke, cardio, diabetes. */
  method PushSeries(working: seq<Point>, sel: Selection) returns (series: seq<Series>)
    ensures series == BuildSeries(working, sel)
  {
    series := [];
    if sel.stroke {
      series := series + [SeriesFor(working, Stroke)];
    }
    if sel.cardio {
      series := series + [SeriesFor(working, Cardio)];
    }
    if sel.diabetes {
      series := series + [SeriesFor(working, Diabetes)];
    }
  }

  method DeriveChart(data: seq<Observation>, sel: Selection) returns (chart: Chart)
    ensures chart == ChartSpec(data, sel)
  {
    if |data| == 0 {
      return EmptyChart;
    }
    var parsed := Parsed(data);
    if |parsed| == 0 {
      return EmptyChart;
    }
    var working := WorkingPoints(parsed);
    var series := PushSeries(working, sel);
    var maxVal := MaxPlotted(series);
    chart := Chart(Labels(working), series, YAxisMax(maxVal));
  }

  // ---------------------------------------------------------------------
  // Properties of the chart

  /** No labels exactly when no record has a usable date; then the chart is the empty default with bound 60. */
  lemma ChartEmptyIffUndated(data: seq<Observation>, sel: Selection)
    ensures ChartSpec(data, sel).labels == [] <==> forall i :: 0 <= i < |data| ==> !Dated(data[i])
    ensures (forall i :: 0 <= i < |data| ==> !Dated(data[i])) ==> ChartSpec(data, sel) == EmptyChart
  {
    var p := Parsed(data);
    if exists i :: 0 <= i < |data| && Dated(data[i]) {
      var i :| 0 <= i < |data| && Dated(data[i]);
      assert data[i] in KeepDated(data);
      assert |p| > 0;
      if NeedMonthly(p) {
        assert MonthKey(p[0]) in DistinctMonths(p);
        assert |SortedMonths(p)| > 0;
      }
    }
  }

  /** The series follow the selected metrics, each with one value per point. */
  lemma BuildSeriesShape(points: seq<Point>, sel: Selection)
    ensures |BuildSeries(points, sel)| == |SelectedMetrics(sel)|
    ensures forall i :: 0 <= i < |BuildSeries(points, sel)| ==>
      BuildSeries(points, sel)[i].metric == SelectedMetrics(sel)[i]
        && BuildSeries(points, sel)[i].name == SeriesLabel(SelectedMetrics(sel)[i])
        && |BuildSeries(points, sel)[i].data| == |points|
    ensures forall s, j :: s in BuildSeries(points, sel) && 0 <= j < |points| ==>
      s.data[j] == PointValue(points[j], s.metric)
  {
  }

  /** The chart of records some of which are dated. */
  lemma ChartOfDated(data: seq<Observation>, sel: Selection)
    requires |Parsed(data)| > 0
    ensures var points := Points(Parsed(data)); var ss := BuildSeries(points, sel);
      ChartSpec(data, sel) == Chart(Labels(points), ss, YAxisMax(MaxOver(ss)))
  {
  }

  /**
   * There is one series per ticked metric, in the order stroke, cardio,
   * diabetes, each named after its metric and as long as the label sequence.
   */
  lemma ChartSeriesMatchSelection(data: seq<Observation>, sel: Selection)
    requires ChartSpec(data, sel).labels != []
    ensures |ChartSpec(data, sel).series| == |SelectedMetrics(sel)|
    ensures forall i :: 0 <= i < |ChartSpec(data, sel).series| ==>
      ChartSpec(data, sel).series[i].metric == SelectedMetrics(sel)[i]
        && ChartSpec(data, sel).series[i].name == SeriesLabel(SelectedMetrics(sel)[i])
        && |ChartSpec(data, sel).series[i].data| == |ChartSpec(data, sel).labels|
  {
    ChartOfDated(data, sel);
    BuildSeriesShape(Points(Parsed(data)), sel);
  }

  /** Every series has one value per label, also for the empty chart. */
  lemma ChartAligned(data: seq<Observation>, sel: Selection)
    ensures forall s :: s in ChartSpec(data, sel).series ==> |s.data| == |ChartSpec(data, sel).labels|
  {
    if |Parsed(data)| > 0 {
      ChartOfDated(data, sel);
      BuildSeriesShape(Points(Parsed(data)), sel);
    }
  }

  /**
   * Daily mode: one point per dated record, in ascending time order (see
   * ParsedFacts), labelled YYYY-MM-DD, each series holding that record's value
   * (0 when not a number).
   */
  lemma ChartDaily(data: seq<Observation>, sel: Selection)
    requires |Parsed(data)| > 0 && !NeedMonthly(Parsed(data))
    ensures |ChartSpec(data, sel).labels| == |KeepDated(data)|
    ensures forall s :: s in ChartSpec(data, sel).series ==> |s.data| == |Parsed(data)|
    ensures forall i :: 0 <= i < |Parsed(data)| ==>
      ChartSpec(data, sel).labels[i] == DayLabel(Parsed(data)[i].date.value)
    ensures forall s, i :: s in ChartSpec(data, sel).series && 0 <= i < |Parsed(data)| ==>
      s.data[i] == OrZero(Field(Parsed(data)[i], s.metric))
  {
    var p := Parsed(data);
    assert Points(p) == DailyPoints(p);
    ChartOfDated(data, sel);
    DailySeries(p, sel);
  }

  /** Daily points carry each record's day label and values, in every ticked series. */
  lemma DailySeries(p: seq<Observation>, sel: Selection)
    requires |p| > 0 && AllDated(p)
    ensures forall i :: 0 <= i < |p| ==> Labels(DailyPoints(p))[i] == DayLabel(p[i].date.value)
    ensures forall s :: s in BuildSeries(DailyPoints(p), sel) ==> |s.data| == |p|
    ensures forall s, i :: s in BuildSeries(DailyPoints(p), sel) && 0 <= i < |p| ==>
      s.data[i] == OrZero(Field(p[i], s.metric))
  {
    var points := DailyPoints(p);
    BuildSeriesShape(points, sel);
    forall s, i | s in BuildSeries(points, sel) && 0 <= i < |p| ensures s.data[i] == OrZero(Field(p[i], s.metric)) {
      assert points[i] == DailyPoint(p[i]);
    }
  }

  /** A month key of a dated record among the data. */
  ghost predicate MonthOfData(data: seq<Observation>, k: int) {
    exists o :: o in data && Dated(o) && MonthKey(o) == k
  }

  /** The months of the monthly chart are strictly ascending, so each appears once. */
  lemma SortedMonthsAscending(p: seq<Observation>)
    ensures forall i, j :: 0 <= i < j < |SortedMonths(p)| ==> SortedMonths(p)[i] < SortedMonths(p)[j]
  {
    var ds := DistinctMonths(p);
    var ks := SortedMonths(p);
    SortBySorted(ds, Id);
    SortByDistinct(ds, Id);
    assert SortedBy(ks, Id) && Distinct(ks);
    forall i, j | 0 <= i < j < |ks| ensures ks[i] < ks[j] {
      assert Id(ks[i]) <= Id(ks[j]);
      assert ks[i] != ks[j];
    }
  }

  /** The months of the monthly chart are exactly the calendar months of the dated records. */
  lemma SortedMonthsCoverData(data: seq<Observation>)
    ensures forall k :: k in SortedMonths(Parsed(data)) <==> MonthOfData(data, k)
  {
    var p := Parsed(data);
    var ds := DistinctMonths(p);
    var ks := SortedMonths(p);
    ParsedFacts(data);
    forall k ensures k in ks <==> MonthOfData(data, k) {
      assert k in ks <==> k in multiset(ds);
      if k in ds {
        var i :| 0 <= i < |p| && MonthKey(p[i]) == k;
        assert p[i] in multiset(KeepDated(data));
      }
      if MonthOfData(data, k) {
        var o :| o in data && Dated(o) && MonthKey(o) == k;
        assert o in multiset(p);
        var i :| 0 <= i < |p| && p[i] == o;
      }
    }
  }

  /** No month of the monthly chart is without records, so each average divides by the true count. */
  lemma SortedMonthsNonEmpty(p: seq<Observation>)
    ensures forall j :: 0 <= j < |SortedMonths(p)| ==> |MonthItems(p, SortedMonths(p)[j])| > 0
  {
    var ds := DistinctMonths(p);
    var ks := SortedMonths(p);
    forall j | 0 <= j < |ks| ensures |MonthItems(p, ks[j])| > 0 {
      assert ks[j] in multiset(ds);
      assert ks[j] in ds;
      var i :| 0 <= i < |p| && MonthKey(p[i]) == ks[j];
      MonthItemsHas(p, i);
    }
  }

  lemma {:induction false} MonthItemsHas(p: seq<Observation>, i: int)
    requires 0 <= i < |p|
    ensures |MonthItems(p, MonthKey(p[i]))| > 0
    decreases |p|
  {
    if i < |p| - 1 {
      assert p[..|p| - 1][i] == p[i];
      MonthItemsHas(p[..|p| - 1], i);
    }
  }

  /**
   * Monthly mode: one point per month of SortedMonths, labelled "<Mon> <YYYY>",
   * each value the average of that month's records (non-numbers counting as 0).
   */
  lemma ChartMonthly(data: seq<Observation>, sel: Selection)
    requires |Parsed(data)| > 0 && NeedMonthly(Parsed(data))
    ensures |ChartSpec(data, sel).labels| == |SortedMonths(Parsed(data))|
    ensures forall j :: 0 <= j < |SortedMonths(Parsed(data))| ==>
      var k := SortedMonths(Parsed(data))[j];
      ChartSpec(data, sel).labels[j] == MonthLabel(k / 12, k % 12)
    ensures forall s, j :: s in ChartSpec(data, sel).series && 0 <= j < |SortedMonths(Parsed(data))| ==>
      s.data[j] == Average(MonthItems(Parsed(data), SortedMonths(Parsed(data))[j]), s.metric)
  {
    var p := Parsed(data);
    var points := MonthlyPoints(p);
    assert Points(p) == points;
    ChartOfDated(data, sel);
    BuildSeriesShape(points, sel);
  }

  lemma {:induction false} SumWithin(items: seq<Observation>, m: Metric, lo: real, hi: real)
    requires forall i :: 0 <= i < |items| ==> lo <= OrZero(Field(items[i], m)) <= hi
    ensures |items| as real * lo <= Sum(items, m) <= |items| as real * hi
    decreases |items|
  {
    if |items| > 0 {
      var n := |items| - 1;
      var front := items[..n];
      forall i | 0 <= i < |front| ensures lo <= OrZero(Field(front[i], m)) <= hi {
        assert front[i] == items[i];
      }
      SumWithin(front, m, lo, hi);
      var v := OrZero(Field(items[n], m));
      assert lo <= v <= hi;
      assert Sum(items, m) == Sum(front, m) + v;
      AddWithin(n as real, lo, hi, Sum(front, m), v);
    }
  }

  /** Adding one more value in [lo, hi] to a sum of n such values. */
  lemma AddWithin(n: real, lo: real, hi: real, total: real, v: real)
    requires n * lo <= total <= n * hi && lo <= v <= hi
    ensures (n + 1.0) * lo <= total + v <= (n + 1.0) * hi
  {
  }

  /** A month's average lies between the least and the greatest of its values. */
  lemma AverageWithin(items: seq<Observation>, m: Metric, lo: real, hi: real)
    requires |items| > 0
    requires forall i :: 0 <= i < |items| ==> lo <= OrZero(Field(items[i], m)) <= hi
    ensures lo <= Average(items, m) <= hi
  {
    SumWithin(items, m, lo, hi);
    QuotientWithin(Sum(items, m), |items| as real, lo, hi);
  }

  lemma QuotientWithin(total: real, n: real, lo: real, hi: real)
    requires n > 0.0 && n * lo <= total <= n * hi
    ensures lo <= total / n <= hi
  {
    var q := total / n;
    assert q * n == total;
  }

  /** The y-axis bound is a multiple of 10 in [10, 100], and clears the maximum by 5 when that is at most 95. */
  lemma YAxisMaxBounds(maxVal: real)
    ensures YAxisMax(maxVal) % 10 == 0
    ensures 10 <= YAxisMax(maxVal) <= 100
    ensures maxVal <= 95.0 ==> maxVal + 5.0 <= YAxisMax(maxVal) as real
  {
    var padded := Min(100.0, Max(0.0, maxVal + 5.0));
    var c := Ceil(padded / 10.0);
    assert padded / 10.0 <= c as real;
    assert (c * 10) as real == c as real * 10.0;
  }

  /** Every plotted value, when none exceeds 95, lies at least 5 below the y-axis bound. */
  lemma ChartYAxisClearsValues(data: seq<Observation>, sel: Selection)
    requires forall s, i :: s in ChartSpec(data, sel).series && 0 <= i < |s.data| ==> s.data[i] <= 95.0
    ensures forall s, i :: s in ChartSpec(data, sel).series && 0 <= i < |s.data| ==>
      s.data[i] + 5.0 <= ChartSpec(data, sel).yAxisMax as real
    ensures ChartSpec(data, sel).yAxisMax % 10 == 0
  {
    if |Parsed(data)| > 0 {
      ChartOfDated(data, sel);
      SeriesClearBound(ChartSpec(data, sel).series);
    }
  }

  /** Series whose values are at most 95 all lie at least 5 below their bound. */
  lemma SeriesClearBound(ss: seq<Series>)
    requires forall s, i :: s in ss && 0 <= i < |s.data| ==> s.data[i] <= 95.0
    ensures forall s, i :: s in ss && 0 <= i < |s.data| ==> s.data[i] + 5.0 <= YAxisMax(MaxOver(ss)) as real
    ensures YAxisMax(MaxOver(ss)) % 10 == 0
  {
    var m := MaxOver(ss);
    MaxOverAttained(ss);
    if m != 0.0 {
      var i, j :| 0 <= i < |ss| && 0 <= j < |ss[i].data| && ss[i].data[j] == m;
      assert ss[i] in ss;
    }
    YAxisMaxBounds(m);
  }

  /** The maximum is 0 or one of the plotted values. */
  lemma {:induction false} MaxOverAttained(ss: seq<Series>)
    ensures MaxOver(ss) == 0.0 || exists i, j :: 0 <= i < |ss| && 0 <= j < |ss[i].data| && ss[i].data[j] == MaxOver(ss)
    decreases |ss|
  {
    if |ss| > 0 {
      var init := ss[..|ss| - 1];
      MaxOverAttained(init);
      MaxInAttained(MaxOver(init), ss[|ss| - 1].data);
      if MaxOver(ss) != 0.0 && MaxOver(ss) == MaxOver(init) {
        var i, j :| 0 <= i < |init| && 0 <= j < |init[i].data| && init[i].data[j] == MaxOver(init);
        assert ss[i] == init[i];
      }
    }
  }

  lemma {:induction false} MaxInAttained(acc: real, vs: seq<real>)
    ensures MaxIn(acc, vs) == acc || exists j :: 0 <= j < |vs| && vs[j] == MaxIn(acc, vs)
    decreases |vs|
  {
    if |vs| > 0 {
      MaxInAttained(acc, vs[..|vs| - 1]);
      if MaxIn(acc, vs) != acc && MaxIn(acc, vs) == MaxIn(acc, vs[..|vs| - 1]) {
        var j :| 0 <= j < |vs| - 1 && vs[..|vs| - 1][j] == MaxIn(acc, vs);
        assert vs[j] == MaxIn(acc, vs);
      }
    }
  }

  // ---------------------------------------------------------------------
  // Tick labels

  /** `/^\d{4}-\d{2}-\d{2}$/`. */
  predicate IsIsoDay(s: string) {
    |s| == 10 && s[4] == '-' && s[7] == '-' && AllDigits(s[..4]) && AllDigits(s[5..7]) && AllDigits(s[8..10])
  }

  lemma IsoDaySplit(s: string)
    requires IsIsoDay(s)
    ensures Split(s, '-') == [s[..4], s[5..7], s[8..10]]
  {
    assert s == s[..4] + ['-'] + s[5..];
    assert s[5..] == s[5..7] + ['-'] + s[8..10];
    assert '-' !in s[..4] && '-' !in s[5..7] && '-' !in s[8..10] by {
      assert !IsDigit('-');
    }
    SplitAfterSeparator(s[..4], '-', s[5..]);
    SplitAfterSeparator(s[5..7], '-', s[8..10]);
    SplitWithoutSeparator(s[8..10], '-');
  }

  /** On narrow screens with more than 6 labels, odd interior positions are left blank. */
  predicate Thinned(index: int, total: int) {
    total > 4 && index > 0 && index < total - 1 && total > 6 && index % 2 == 1
  }

  /** YYYY-MM-DD becomes MM/DD and "<Mon> <YYYY>" becomes "<Mon>"; other labels stay. */
  function Shorten(text: string): string {
    if IsIsoDay(text) then
      IsoDaySplit(text);
      var parts := Split(text, '-');
      parts[1] + "/" + parts[2]
    else
      var parts := Split(text, ' ');
      if |parts| == 2 && |parts[1]| == 4 then parts[0] else text
  }

  function FormatXAxisLabel(text: string, index: int, total: int, isMobile: bool): string {
    if text == "" || !isMobile then text
    else if Thinned(index, total) then ""
    else Shorten(text)
  }

  /** `xAxisData.indexOf(value)`. */
  function IndexOf(labels: seq<string>, value: string): (i: int)
    ensures -1 <= i < |labels|
    ensures i == -1 <==> value !in labels
    ensures 0 <= i ==> labels[i] == value && value !in labels[..i]
  {
    if |labels| == 0 then -1
    else if labels[0] == value then 0
    else
      var j := IndexOf(labels[1..], value);
      assert labels == [labels[0]] + labels[1..];
      if j == -1 then -1
      else
        assert labels[..j + 1] == [labels[0]] + labels[1..][..j];
        j + 1
  }

  /** The tick formatter: none for an empty axis, the value itself when it is not a label. */
  function TickText(labels: seq<string>, isMobile: bool, value: string): Option<string> {
    if |labels| == 0 then None
    else
      var index := IndexOf(labels, value);
      if index == -1 then Some(value) else Some(FormatXAxisLabel(value, index, |labels|, isMobile))
  }

  /**
   * A day label on a narrow screen: blank exactly at thinned positions, and
   * otherwise shortened to MM/DD; off narrow screens it is shown whole.
   */
  lemma FormatDayLabel(d: DateParts, index: int, total: int, isMobile: bool)
    requires 1000 <= d.year <= 9999
    ensures var r := FormatXAxisLabel(DayLabel(d), index, total, isMobile);
      (!isMobile ==> r == DayLabel(d))
      && (isMobile && Thinned(index, total) ==> r == "")
      && (isMobile && !Thinned(index, total) ==>
            r == PadStart2(NatToString(d.month + 1)) + "/" + PadStart2(NatToString(d.day))
            && |r| == 5
            && DigitsValue(r[..2]) == d.month + 1 && DigitsValue(r[3..]) == d.day)
  {
    var l := DayLabel(d);
    DayLabelShape(d);
    ShortenDayLabel(d);
    var r := l[5..7] + "/" + l[8..10];
    assert r[..2] == l[5..7] && r[3..] == l[8..10];
  }

  /** A day label is an ISO day, so shortening keeps its month and day fields. */
  lemma ShortenDayLabel(d: DateParts)
    requires 1000 <= d.year <= 9999
    ensures |DayLabel(d)| == 10
    ensures Shorten(DayLabel(d)) == DayLabel(d)[5..7] + "/" + DayLabel(d)[8..10]
  {
    var l := DayLabel(d);
    DayLabelShape(d);
    assert AllDigits(l[..4]) && AllDigits(l[5..7]) && AllDigits(l[8..10]) by {
      NatToStringLength(d.year, 4);
      TwoDigits(d.month + 1);
      TwoDigits(d.day);
    }
    assert IsIsoDay(l);
    IsoDaySplit(l);
  }

  /** A month label on a narrow screen: blank exactly at thinned positions, otherwise just the month name. */
  lemma FormatMonthLabel(year: int, month: Month0, index: int, total: int, isMobile: bool)
    requires 1000 <= year <= 9999
    ensures var r := FormatXAxisLabel(MonthLabel(year, month), index, total, isMobile);
      (!isMobile ==> r == MonthLabel(year, month))
      && (isMobile && Thinned(index, total) ==> r == "")
      && (isMobile && !Thinned(index, total) ==> r == MonthNames[month])
  {
    var l := MonthLabel(year, month);
    assert Pow10(3) == 1000 && Pow10(4) == 10000 by {
      assert Pow10(1) == 10 && Pow10(2) == 100;
    }
    NatToStringLength(year, 4);
    var y := NatToString(year);
    assert l == MonthNames[month] + [' '] + y;
    assert !IsIsoDay(l) by {
      assert |l| == 8;
    }
    assert ' ' !in MonthNames[month];
    assert ' ' !in y by {
      assert !IsDigit(' ');
    }
    SplitAfterSeparator(MonthNames[month], ' ', y);
    SplitWithoutSeparator(y, ' ');
  }

  /** The first label is never blanked; nor is the last when it does not repeat an earlier one. */
  lemma EndsNeverBlank(labels: seq<string>, isMobile: bool)
    requires |labels| > 0
    ensures var first := labels[0];
      TickText(labels, isMobile, first) == Some(if first == "" || !isMobile then first else Shorten(first))
    ensures var last := labels[|labels| - 1];
      last !in labels[..|labels| - 1] ==>
        TickText(labels, isMobile, last) == Some(if last == "" || !isMobile then last else Shorten(last))
  {
  }
}
