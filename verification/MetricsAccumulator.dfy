/** The accumulator of all the metrics that function code emits (src/telemetry/otel_metrics.rs). The four
    maps of the program, one per kind of metric, are one map keyed by kind and name. */
module MetricsAccumulator {
  import opened Sequences
  import opened DataPoints
  import opened TimeSeries
  import opened PointLaws

  /** `AggregationTemporality::Cumulative` */
  const CUMULATIVE := 2

  type SeriesId = seq<Attribute>

  datatype Kind = GaugeKind | SumKind | HistogramKind | SummaryKind

  datatype MetricKey = MetricKey(kind: Kind, name: string)

  datatype MetricData =
    | GaugeData(points: seq<DataPoint>)
    | SumData(points: seq<DataPoint>, temporality: int, monotonic: bool)
    | HistogramData(points: seq<DataPoint>, temporality: int)
    | SummaryData(points: seq<DataPoint>)
    | ExponentialHistogramData(count: nat)

  datatype Metric = Metric(name: string, description: string, unit: string, data: Option<MetricData>) {
    function Key(): Option<MetricKey> {
      match data
      case Some(GaugeData(_)) => Some(MetricKey(GaugeKind, name))
      case Some(SumData(_, _, _)) => Some(MetricKey(SumKind, name))
      case Some(HistogramData(_, _)) => Some(MetricKey(HistogramKind, name))
      case Some(SummaryData(_)) => Some(MetricKey(SummaryKind, name))
      case _ => None
    }

    function Points(): seq<DataPoint> {
      match data
      case Some(ExponentialHistogramData(_)) => []
      case Some(d) => d.points
      case None => []
    }

    /** Whether its points are accumulated only if different. */
    predicate Deduplicates() {
      match data
      case Some(SumData(_, t, _)) => t == CUMULATIVE
      case Some(HistogramData(_, t)) => t == CUMULATIVE
      case Some(SummaryData(_)) => true
      case _ => false
    }
  }

  /** The state kept for one metric. The metadata is that of the first metric seen with this key. */
  datatype MetricAccumulator = MetricAccumulator(
    key: MetricKey, description: string, unit: string, temporality: int, monotonic: bool,
    series: map<SeriesId, TimeSeries>)
  {
    function SeriesOf(id: SeriesId): TimeSeries {
      if id in series then series[id] else TimeSeries(None, [])
    }

    function AccumulatePoint(p: DataPoint, deduplicate: bool): MetricAccumulator {
      var ts := SeriesOf(p.SeriesId());
      this.(series := series[p.SeriesId() := if deduplicate then ts.AccumulateIfDifferent(p) else ts.AccumulateAsIs(p)])
    }

    /** Whether an export inflates. */
    predicate Inflates() {
      match key.kind
      case GaugeKind => false
      case SumKind => temporality == CUMULATIVE
      case HistogramKind => temporality == CUMULATIVE
      case SummaryKind => true
    }

    function Taken(id: SeriesId): seq<DataPoint> {
      if Inflates() then Owed(SeriesOf(id)) else SeriesOf(id).newPoints
    }

    function AfterTake(): MetricAccumulator {
      this.(series := map id | id in series ::
                        if Inflates() then series[id].AfterExport() else series[id].TakeAsIs().0)
    }

    function ToMetric(points: seq<DataPoint>): (m: Metric)
      ensures m.Key() == Some(key) && m.Points() == points
    {
      var data := match key.kind
        case GaugeKind => GaugeData(points)
        case SumKind => SumData(points, temporality, monotonic)
        case HistogramKind => HistogramData(points, temporality)
        case SummaryKind => SummaryData(points);
      Metric(key.name, description, unit, Some(data))
    }

    /** Every point is filed under its own series. */
    ghost predicate Valid() {
      forall id :: id in series ==>
        && (series[id].previousPoint.Some? ==> series[id].previousPoint.value.SeriesId() == id)
        && forall p :: p in series[id].newPoints ==> p.SeriesId() == id
    }
  }

  function NewAccumulator(key: MetricKey, m: Metric): MetricAccumulator {
    match m.data
    case Some(SumData(_, t, mono)) => MetricAccumulator(key, m.description, m.unit, t, mono, map[])
    case Some(HistogramData(_, t)) => MetricAccumulator(key, m.description, m.unit, t, false, map[])
    case _ => MetricAccumulator(key, m.description, m.unit, 0, false, map[])
  }

  // ---------------------------------------------------------------------------
  // Projection on one metric and one series.

  /** The points that belong to one series, in order. */
  function OfSeries(ps: seq<DataPoint>, id: SeriesId): seq<DataPoint> {
    if ps == [] then []
    else (if ps[0].SeriesId() == id then [ps[0]] else []) + OfSeries(ps[1..], id)
  }

  function PointsOf(ms: seq<Metric>, key: MetricKey, id: SeriesId): seq<DataPoint> {
    if ms == [] then []
    else (if ms[0].Key() == Some(key) then OfSeries(ms[0].Points(), id) else []) + PointsOf(ms[1..], key, id)
  }

  lemma {:induction false} OfSeriesAppend(a: seq<DataPoint>, b: seq<DataPoint>, id: SeriesId)
    ensures OfSeries(a + b, id) == OfSeries(a, id) + OfSeries(b, id)
  {
    if a == [] {
      assert a + b == b;
    } else {
      var first := if a[0].SeriesId() == id then [a[0]] else [];
      assert (a + b)[0] == a[0] && (a + b)[1..] == a[1..] + b;
      OfSeriesAppend(a[1..], b, id);
      Associative(first, OfSeries(a[1..], id), OfSeries(b, id));
    }
  }

  lemma {:induction false} PointsOfAppend(a: seq<Metric>, b: seq<Metric>, key: MetricKey, id: SeriesId)
    ensures PointsOf(a + b, key, id) == PointsOf(a, key, id) + PointsOf(b, key, id)
  {
    if a == [] {
      assert a + b == b;
    } else {
      var first := if a[0].Key() == Some(key) then OfSeries(a[0].Points(), id) else [];
      assert (a + b)[0] == a[0] && (a + b)[1..] == a[1..] + b;
      PointsOfAppend(a[1..], b, key, id);
      Associative(first, PointsOf(a[1..], key, id), PointsOf(b, key, id));
    }
  }

  lemma PointsOfOne(m: Metric, key: MetricKey, id: SeriesId)
    ensures PointsOf([m], key, id) == if m.Key() == Some(key) then OfSeries(m.Points(), id) else []
  {
    assert PointsOf([m], key, id)
        == (if m.Key() == Some(key) then OfSeries(m.Points(), id) else []) + PointsOf([], key, id);
  }

  /** Points that all belong to one series are kept by its projection and dropped by the others. */
  lemma {:induction false} OfSeriesUniform(ps: seq<DataPoint>, own: SeriesId, id: SeriesId)
    requires forall p :: p in ps ==> p.SeriesId() == own
    ensures OfSeries(ps, id) == if id == own then ps else []
  {
    if ps != [] {
      OfSeriesUniform(ps[1..], own, id);
    }
  }

  lemma {:induction false} InflateKeepsSeries(prev: Option<DataPoint>, ps: seq<DataPoint>, id: SeriesId)
    requires prev.Some? ==> prev.value.SeriesId() == id
    requires forall p :: p in ps ==> p.SeriesId() == id
    ensures forall p :: p in Inflate(prev, ps) ==> p.SeriesId() == id
    decreases ps
  {
    if ps != [] {
      InflateKeepsSeries(Some(ps[0]), ps[1..], id);
      forall p | p in Emission(prev, ps[0]) ensures p.SeriesId() == id {
        assert p.attributes == ps[0].attributes || (prev.Some? && p.attributes == prev.value.attributes);
      }
    }
  }

  // ---------------------------------------------------------------------------
  // Accumulating the points of one metric.

  /** What accumulating a list of points does to each series. */
  function AccumulateAll(ts: TimeSeries, ps: seq<DataPoint>, deduplicate: bool): TimeSeries
    decreases ps
  {
    if ps == [] then ts
    else AccumulateAll(if deduplicate then ts.AccumulateIfDifferent(ps[0]) else ts.AccumulateAsIs(ps[0]), ps[1..],
                       deduplicate)
  }

  lemma {:induction false} AccumulateAllNext(ts: TimeSeries, ps: seq<DataPoint>, p: DataPoint, deduplicate: bool)
    ensures AccumulateAll(ts, ps + [p], deduplicate)
         == (var t := AccumulateAll(ts, ps, deduplicate);
             if deduplicate then t.AccumulateIfDifferent(p) else t.AccumulateAsIs(p))
    decreases ps
  {
    if ps == [] {
      assert [p][1..] == [];
    } else {
      assert (ps + [p])[1..] == ps[1..] + [p];
      AccumulateAllNext(if deduplicate then ts.AccumulateIfDifferent(ps[0]) else ts.AccumulateAsIs(ps[0]), ps[1..], p,
                        deduplicate);
    }
  }

  /** Each series of r is that of acc with the points of ps that belong to it accumulated. */
  ghost predicate HasAccumulated(acc: MetricAccumulator, ps: seq<DataPoint>, deduplicate: bool, r: MetricAccumulator) {
    && r == acc.(series := r.series)
    && forall id :: r.SeriesOf(id) == AccumulateAll(acc.SeriesOf(id), OfSeries(ps, id), deduplicate)
  }

  lemma AccumulatePointNext(acc: MetricAccumulator, ps: seq<DataPoint>, p: DataPoint, deduplicate: bool,
                            r: MetricAccumulator)
    requires HasAccumulated(acc, ps, deduplicate, r)
    ensures HasAccumulated(acc, ps + [p], deduplicate, r.AccumulatePoint(p, deduplicate))
  {
    var next := r.AccumulatePoint(p, deduplicate);
    forall id ensures next.SeriesOf(id) == AccumulateAll(acc.SeriesOf(id), OfSeries(ps + [p], id), deduplicate) {
      OfSeriesAppend(ps, [p], id);
      OfSeriesUniform([p], p.SeriesId(), id);
      if id == p.SeriesId() {
        AccumulateAllNext(acc.SeriesOf(id), OfSeries(ps, id), p, deduplicate);
      } else {
        assert OfSeries(ps, id) + [] == OfSeries(ps, id);
        assert r.SeriesOf(id) == next.SeriesOf(id);
      }
    }
  }

  lemma AccumulatePointValid(acc: MetricAccumulator, p: DataPoint, deduplicate: bool)
    requires acc.Valid()
    ensures acc.AccumulatePoint(p, deduplicate).Valid()
  {}

  /** `accumulate_as_is` and `accumulate_if_different` */
  method AccumulatePoints(acc: MetricAccumulator, ps: seq<DataPoint>, deduplicate: bool) returns (r: MetricAccumulator)
    requires acc.Valid()
    ensures r.Valid() && HasAccumulated(acc, ps, deduplicate, r)
  {
    r := acc;
    for i := 0 to |ps|
      invariant r.Valid() && HasAccumulated(acc, ps[..i], deduplicate, r)
    {
      AccumulatePointNext(acc, ps[..i], ps[i], deduplicate, r);
      AccumulatePointValid(r, ps[i], deduplicate);
      assert ps[..i + 1] == ps[..i] + [ps[i]];
      r := r.AccumulatePoint(ps[i], deduplicate);
    }
    assert ps[..|ps|] == ps;
  }

  lemma AfterTakeValid(acc: MetricAccumulator)
    requires acc.Valid()
    ensures acc.AfterTake().Valid()
  {
    forall id | id in acc.series
      ensures acc.series[id].LastPoint().Some? ==> acc.series[id].LastPoint().value.SeriesId() == id
    {}
  }

  method TakeSeries(acc: MetricAccumulator, own: SeriesId) returns (rest: TimeSeries, taken: seq<DataPoint>)
    requires acc.Valid() && own in acc.series
    ensures rest == acc.AfterTake().series[own] && taken == acc.Taken(own)
    ensures forall p :: p in taken ==> p.SeriesId() == own
  {
    if acc.Inflates() {
      rest, taken := TakeAndInflateDataPoints(acc.series[own]);
      InflateKeepsSeries(acc.series[own].previousPoint, acc.series[own].newPoints, own);
    } else {
      var r := acc.series[own].TakeAsIs();
      rest, taken := r.0, r.1;
    }
  }

  /** The points taken so far: those of every series except the ones still to do. */
  ghost predicate TakenExcept(acc: MetricAccumulator, points: seq<DataPoint>, todo: set<SeriesId>) {
    forall id :: OfSeries(points, id) == if id in todo then [] else acc.Taken(id)
  }

  lemma NothingTaken(acc: MetricAccumulator)
    ensures TakenExcept(acc, [], acc.series.Keys)
  {
    forall id | id !in acc.series ensures acc.Taken(id) == [] {
      assert acc.SeriesOf(id) == TimeSeries(None, []);
    }
  }

  lemma TakenNext(acc: MetricAccumulator, points: seq<DataPoint>, todo: set<SeriesId>, own: SeriesId)
    requires TakenExcept(acc, points, todo) && own in todo
    requires forall p :: p in acc.Taken(own) ==> p.SeriesId() == own
    ensures TakenExcept(acc, points + acc.Taken(own), todo - {own})
  {
    var taken := acc.Taken(own);
    forall id ensures OfSeries(points + taken, id) == if id in todo - {own} then [] else acc.Taken(id) {
      OfSeriesAppend(points, taken, id);
      OfSeriesUniform(taken, own, id);
      assert OfSeries(points, id) == if id in todo then [] else acc.Taken(id);
      assert [] + taken == taken && acc.Taken(id) + [] == acc.Taken(id);
    }
  }

  /** All series are as after an export, except the ones still to do. */
  ghost predicate AfterExcept(acc: MetricAccumulator, series: map<SeriesId, TimeSeries>, todo: set<SeriesId>) {
    && series.Keys == acc.series.Keys
    && forall id :: id in series ==> series[id] == if id in todo then acc.series[id] else acc.AfterTake().series[id]
  }

  lemma AfterNext(acc: MetricAccumulator, series: map<SeriesId, TimeSeries>, todo: set<SeriesId>, own: SeriesId)
    requires AfterExcept(acc, series, todo) && own in todo && own in acc.series
    ensures AfterExcept(acc, series[own := acc.AfterTake().series[own]], todo - {own})
  {}

  lemma AllAfter(acc: MetricAccumulator, series: map<SeriesId, TimeSeries>)
    requires AfterExcept(acc, series, {})
    ensures series == acc.AfterTake().series
  {}

  /** `take_as_is` and `take_inflated`: the series are visited in no particular order. */
  method TakePoints(acc: MetricAccumulator) returns (rest: MetricAccumulator, points: seq<DataPoint>)
    requires acc.Valid()
    ensures rest == acc.AfterTake() && rest.Valid()
    ensures TakenExcept(acc, points, {})
  {
    points := [];
    var todo := acc.series.Keys;
    var series := acc.series;
    NothingTaken(acc);
    while todo != {}
      invariant todo <= acc.series.Keys && AfterExcept(acc, series, todo)
      invariant TakenExcept(acc, points, todo)
      decreases todo
    {
      var own :| own in todo;
      var ts, taken := TakeSeries(acc, own);
      TakenNext(acc, points, todo, own);
      AfterNext(acc, series, todo, own);
      series := series[own := ts];
      points := points + taken;
      todo := todo - {own};
    }
    rest := acc.(series := series);
    AllAfter(acc, series);
    AfterTakeValid(acc);
  }

  // ---------------------------------------------------------------------------
  // The history of an accumulator and its projection on one series.

  datatype HistoryEvent = Received(metric: Metric) | Sent(metrics: seq<Metric>)

  /** The single-series operations that an event amounts to. */
  function OpsOf(h: HistoryEvent, key: MetricKey, id: SeriesId): seq<SeriesOp> {
    match h
    case Received(m) => if m.Key() == Some(key) then Accumulations(OfSeries(m.Points(), id)) else []
    case Sent(_) => [SeriesOp.Export]
  }

  function Accumulations(ps: seq<DataPoint>): seq<SeriesOp> {
    seq(|ps|, i requires 0 <= i < |ps| => Accumulate(ps[i]))
  }

  function Project(history: seq<HistoryEvent>, key: MetricKey, id: SeriesId): seq<SeriesOp> {
    if history == [] then []
    else Project(history[..|history| - 1], key, id) + OpsOf(Last(history), key, id)
  }

  function PointsReceived(history: seq<HistoryEvent>, key: MetricKey, id: SeriesId): seq<DataPoint> {
    if history == [] then []
    else PointsReceived(history[..|history| - 1], key, id)
         + if Last(history).Received? then PointsOf([Last(history).metric], key, id) else []
  }

  function PointsSent(history: seq<HistoryEvent>, key: MetricKey, id: SeriesId): seq<DataPoint> {
    if history == [] then []
    else PointsSent(history[..|history| - 1], key, id)
         + if Last(history).Sent? then PointsOf(Last(history).metrics, key, id) else []
  }

  /** Every metric received under this key deduplicates, or none does. */
  ghost predicate Uniform(history: seq<HistoryEvent>, key: MetricKey, deduplicates: bool) {
    forall h :: h in history && h.Received? && h.metric.Key() == Some(key) ==> h.metric.Deduplicates() == deduplicates
  }

  /** The first metric received with this key. */
  function FirstReceived(history: seq<HistoryEvent>, key: MetricKey): Option<Metric> {
    if history == [] then None
    else
      var before := FirstReceived(history[..|history| - 1], key);
      if before.None? && Last(history).Received? && Last(history).metric.Key() == Some(key)
      then Some(Last(history).metric)
      else before
  }

  /** Two metrics that differ in their points alone. */
  ghost predicate SameLabels(m: Metric, n: Metric) {
    && m.name == n.name && m.description == n.description && m.unit == n.unit
    && m.data.Some? && n.data.Some?
    && match m.data.value
       case GaugeData(_) => n.data.value.GaugeData?
       case SumData(_, temporality, monotonic) =>
         && n.data.value.SumData?
         && temporality == n.data.value.temporality
         && monotonic == n.data.value.monotonic
       case HistogramData(_, temporality) =>
         n.data.value.HistogramData? && temporality == n.data.value.temporality
       case SummaryData(_) => n.data.value.SummaryData?
       case ExponentialHistogramData(_) => false
  }

  /** Whatever points an accumulator exports, it exports them under the labels of m. */
  ghost predicate LabelledBy(acc: MetricAccumulator, m: Metric) {
    forall points :: SameLabels(acc.ToMetric(points), m)
  }

  /** There is an accumulator for every key received, labelled by the first metric that had it. */
  ghost predicate Labelled(history: seq<HistoryEvent>, metrics: map<MetricKey, MetricAccumulator>) {
    forall key ::
      && (key in metrics <==> FirstReceived(history, key).Some?)
      && (key in metrics ==> LabelledBy(metrics[key], FirstReceived(history, key).value))
  }

  lemma NewLabelled(m: Metric)
    requires m.Key().Some?
    ensures LabelledBy(NewAccumulator(m.Key().value, m), m)
  {}

  lemma SameLabelled(acc: MetricAccumulator, acc': MetricAccumulator, m: Metric)
    requires acc' == acc.(series := acc'.series) && LabelledBy(acc, m)
    ensures LabelledBy(acc', m)
  {
    forall points ensures SameLabels(acc'.ToMetric(points), m) {
      assert SameLabels(acc.ToMetric(points), m);
    }
  }

  lemma FirstReceivedNext(history: seq<HistoryEvent>, h: HistoryEvent, key: MetricKey)
    ensures FirstReceived(history + [h], key)
         == if FirstReceived(history, key).None? && h.Received? && h.metric.Key() == Some(key) then Some(h.metric)
            else FirstReceived(history, key)
  {
    assert (history + [h])[..|history|] == history;
  }

  lemma ReceivedLabelled(history: seq<HistoryEvent>, metrics: map<MetricKey, MetricAccumulator>, m: Metric,
                         metrics': map<MetricKey, MetricAccumulator>)
    requires Labelled(history, metrics)
    requires match m.Key()
             case None => metrics' == metrics
             case Some(key) =>
               && key in metrics'
               && metrics' == metrics[key := metrics'[key]]
               && var acc := if key in metrics then metrics[key] else NewAccumulator(key, m);
                  metrics'[key] == acc.(series := metrics'[key].series)
    ensures Labelled(history + [Received(m)], metrics')
  {
    forall key
      ensures key in metrics' <==> FirstReceived(history + [Received(m)], key).Some?
      ensures key in metrics' ==> LabelledBy(metrics'[key], FirstReceived(history + [Received(m)], key).value)
    {
      FirstReceivedNext(history, Received(m), key);
      if m.Key() == Some(key) {
        if key in metrics {
          SameLabelled(metrics[key], metrics'[key], FirstReceived(history, key).value);
        } else {
          NewLabelled(m);
          SameLabelled(NewAccumulator(key, m), metrics'[key], m);
        }
      }
    }
  }

  lemma SentLabelled(history: seq<HistoryEvent>, metrics: map<MetricKey, MetricAccumulator>, ms: seq<Metric>,
                     metrics': map<MetricKey, MetricAccumulator>)
    requires Labelled(history, metrics) && ExportedFrom(metrics, metrics', {})
    ensures Labelled(history + [Sent(ms)], metrics')
  {
    forall key
      ensures key in metrics' <==> FirstReceived(history + [Sent(ms)], key).Some?
      ensures key in metrics' ==> LabelledBy(metrics'[key], FirstReceived(history + [Sent(ms)], key).value)
    {
      FirstReceivedNext(history, Sent(ms), key);
      if key in metrics {
        SameLabelled(metrics[key], metrics'[key], FirstReceived(history, key).value);
      }
    }
  }

  /** The labels of m are those of the first metric received with its key. */
  ghost predicate ExportedUnder(history: seq<HistoryEvent>, m: Metric) {
    && m.Key().Some?
    && FirstReceived(history, m.Key().value).Some?
    && SameLabels(m, FirstReceived(history, m.Key().value).value)
  }

  /** No two metrics share a key, and each is under the labels received first. */
  ghost predicate OneEach(history: seq<HistoryEvent>, exported: seq<Metric>) {
    && (forall i, j :: 0 <= i < j < |exported| ==> exported[i].Key() != exported[j].Key())
    && forall i :: 0 <= i < |exported| ==> ExportedUnder(history, exported[i])
  }

  /** There is a metric for each accumulator, except the ones still to do. */
  ghost predicate OneEachExcept(history: seq<HistoryEvent>, metrics: map<MetricKey, MetricAccumulator>,
                                exported: seq<Metric>, todo: set<MetricKey>)
  {
    && |todo| + |exported| == |metrics|
    && OneEach(history, exported)
    && forall i :: 0 <= i < |exported| ==> exported[i].Key().value !in todo
  }

  lemma OneEachNext(history: seq<HistoryEvent>, metrics: map<MetricKey, MetricAccumulator>, exported: seq<Metric>,
                    todo: set<MetricKey>, own: MetricKey, points: seq<DataPoint>)
    requires OneEachExcept(history, metrics, exported, todo) && Labelled(history, metrics)
    requires own in todo && own in metrics && metrics[own].key == own
    ensures OneEachExcept(history, metrics, exported + [metrics[own].ToMetric(points)], todo - {own})
  {
    var m := metrics[own].ToMetric(points);
    assert LabelledBy(metrics[own], FirstReceived(history, own).value);
    assert ExportedUnder(history, m);
  }

  function SeriesAt(metrics: map<MetricKey, MetricAccumulator>, key: MetricKey, id: SeriesId): TimeSeries {
    if key in metrics then metrics[key].SeriesOf(id) else TimeSeries(None, [])
  }

  /** The accumulator has treated one series exactly as the single-series algorithm treats the part of
      the history that concerns it; points that are not deduplicated come out unchanged, once, in order. */
  ghost predicate Faithful(history: seq<HistoryEvent>, metrics: map<MetricKey, MetricAccumulator>, key: MetricKey,
                           id: SeriesId)
  {
    var ts := SeriesAt(metrics, key, id);
    && (Uniform(history, key, true) ==>
          && NEW_EXPORTER.Run(Project(history, key, id)) == Exporter(ts, PointsSent(history, key, id))
          && (key in metrics ==> metrics[key].Inflates()))
    && (Uniform(history, key, false) ==>
          && PointsSent(history, key, id) + ts.newPoints == PointsReceived(history, key, id)
          && (key in metrics ==> !metrics[key].Inflates()))
  }

  lemma {:induction false} RunAppend(e: Exporter, a: seq<SeriesOp>, b: seq<SeriesOp>)
    ensures e.Run(a + b) == e.Run(a).Run(b)
    decreases a
  {
    if a == [] {
      assert a + b == b;
    } else {
      assert (a + b)[1..] == a[1..] + b;
      RunAppend(e.Step(a[0]), a[1..], b);
    }
  }

  lemma {:induction false} RunAccumulations(e: Exporter, ps: seq<DataPoint>)
    ensures e.Run(Accumulations(ps)) == e.(series := AccumulateAll(e.series, ps, true))
    decreases ps
  {
    if ps != [] {
      assert Accumulations(ps)[1..] == Accumulations(ps[1..]);
      RunAccumulations(e.Step(Accumulate(ps[0])), ps[1..]);
    }
  }

  lemma {:induction false} AccumulateAllAsIs(ts: TimeSeries, ps: seq<DataPoint>)
    ensures AccumulateAll(ts, ps, false) == ts.(newPoints := ts.newPoints + ps)
    decreases ps
  {
    if ps == [] {
      assert ts.newPoints + [] == ts.newPoints;
    } else {
      AccumulateAllAsIs(ts.AccumulateAsIs(ps[0]), ps[1..]);
      assert ts.newPoints + [ps[0]] + ps[1..] == ts.newPoints + ps;
    }
  }

  lemma UniformBefore(history: seq<HistoryEvent>, h: HistoryEvent, key: MetricKey, deduplicates: bool)
    requires Uniform(history + [h], key, deduplicates)
    ensures Uniform(history, key, deduplicates)
    ensures h.Received? && h.metric.Key() == Some(key) ==> h.metric.Deduplicates() == deduplicates
  {
    assert forall x :: x in history ==> x in history + [h];
    assert h in history + [h];
  }

  /** Receiving a metric keeps every series faithful. */
  lemma ReceivedFaithful(history: seq<HistoryEvent>, metrics: map<MetricKey, MetricAccumulator>, m: Metric,
                         metrics': map<MetricKey, MetricAccumulator>, key: MetricKey, id: SeriesId)
    requires Faithful(history, metrics, key, id)
    requires m.Key() == Some(key) ==>
               && key in metrics'
               && SeriesAt(metrics', key, id)
                  == AccumulateAll(SeriesAt(metrics, key, id), OfSeries(m.Points(), id), m.Deduplicates())
               && metrics'[key].Inflates() == if key in metrics then metrics[key].Inflates() else m.Deduplicates()
    requires m.Key() != Some(key) ==>
               (key in metrics <==> key in metrics') && (key in metrics ==> metrics'[key] == metrics[key])
    ensures Faithful(history + [Received(m)], metrics', key, id)
  {
    var h := Received(m);
    assert (history + [h])[..|history|] == history;
    var ps := OfSeries(m.Points(), id);
    PointsOfOne(m, key, id);
    if Uniform(history + [h], key, true) {
      UniformBefore(history, h, key, true);
      RunAppend(NEW_EXPORTER, Project(history, key, id), OpsOf(h, key, id));
      if m.Key() == Some(key) {
        RunAccumulations(NEW_EXPORTER.Run(Project(history, key, id)), ps);
      } else {
        assert NEW_EXPORTER.Run(Project(history, key, id)).Run([]) == NEW_EXPORTER.Run(Project(history, key, id));
      }
    }
    if Uniform(history + [h], key, false) {
      UniformBefore(history, h, key, false);
      var sent, received := PointsSent(history, key, id), PointsReceived(history, key, id);
      assert sent + [] == sent && received + [] == received;
      if m.Key() == Some(key) {
        AccumulateAllAsIs(SeriesAt(metrics, key, id), ps);
        Associative(sent, SeriesAt(metrics, key, id).newPoints, ps);
      }
    }
  }

  /** So does sending an export. */
  lemma SentFaithful(history: seq<HistoryEvent>, metrics: map<MetricKey, MetricAccumulator>, ms: seq<Metric>,
                     metrics': map<MetricKey, MetricAccumulator>, key: MetricKey, id: SeriesId)
    requires Faithful(history, metrics, key, id)
    requires key in metrics <==> key in metrics'
    requires key in metrics ==>
               metrics'[key] == metrics[key].AfterTake() && PointsOf(ms, key, id) == metrics[key].Taken(id)
    requires key !in metrics ==> PointsOf(ms, key, id) == []
    ensures Faithful(history + [Sent(ms)], metrics', key, id)
  {
    var h := Sent(ms);
    assert (history + [h])[..|history|] == history;
    if Uniform(history + [h], key, true) {
      UniformBefore(history, h, key, true);
      RunAppend(NEW_EXPORTER, Project(history, key, id), [SeriesOp.Export]);
      var e := NEW_EXPORTER.Run(Project(history, key, id));
      assert e.Run([SeriesOp.Export]) == e.Step(SeriesOp.Export);
    }
    if Uniform(history + [h], key, false) {
      UniformBefore(history, h, key, false);
    }
  }

  // ---------------------------------------------------------------------------

  class OtelMetricsAccumulator {
    var droppedDatapoints: nat
    var metrics: map<MetricKey, MetricAccumulator>
    ghost var history: seq<HistoryEvent>

    ghost predicate Valid()
      reads this
    {
      && (forall key :: key in metrics ==> metrics[key].Valid() && metrics[key].key == key)
      && (forall key, id :: Faithful(history, metrics, key, id))
      && Labelled(history, metrics)
    }

    constructor ()
      ensures Valid() && history == [] && droppedDatapoints == 0
    {
      droppedDatapoints, metrics, history := 0, map[], [];
    }

    /** `accumulate_metric` */
    method AccumulateMetric(m: Metric)
      requires Valid()
      modifies this
      ensures Valid() && history == old(history) + [Received(m)]
      ensures droppedDatapoints == old(droppedDatapoints)
                                   + match m.data case Some(ExponentialHistogramData(count)) => count case _ => 0
      ensures metrics.Keys == old(metrics.Keys) + if m.Key().Some? then {m.Key().value} else {}
    {
      ghost var before := metrics;
      match m.Key() {
        case None =>
          if m.data.Some? {
            droppedDatapoints := droppedDatapoints + m.data.value.count;
          }
        case Some(key) =>
          var acc := if key in metrics then metrics[key] else NewAccumulator(key, m);
          var next := AccumulatePoints(acc, m.Points(), m.Deduplicates());
          metrics := metrics[key := next];
          assert forall id :: SeriesAt(before, key, id) == acc.SeriesOf(id);
      }
      forall key, id ensures Faithful(history + [Received(m)], metrics, key, id) {
        ReceivedFaithful(history, before, m, metrics, key, id);
      }
      ReceivedLabelled(history, before, m, metrics);
      history := history + [Received(m)];
    }

    method Accumulate(ms: seq<Metric>)
      requires Valid()
      modifies this
      ensures Valid() && history == old(history) + ReceivedAll(ms)
    {
      for i := 0 to |ms|
        invariant Valid() && history == old(history) + ReceivedAll(ms[..i])
      {
        AccumulateMetric(ms[i]);
        assert ReceivedAll(ms[..i + 1]) == ReceivedAll(ms[..i]) + [Received(ms[i])];
      }
      assert ms[..|ms|] == ms;
    }

    /** One metric per accumulator, visited in no particular order, under the labels received first. */
    method Export() returns (exported: seq<Metric>)
      requires Valid()
      modifies this
      ensures Valid() && history == old(history) + [Sent(exported)]
      ensures droppedDatapoints == old(droppedDatapoints) && metrics.Keys == old(metrics.Keys)
      ensures |exported| == |metrics| && OneEach(old(history), exported)
    {
      exported := [];
      ghost var before := metrics;
      var todo := metrics.Keys;
      while todo != {}
        invariant todo <= before.Keys && ExportedFrom(before, metrics, todo)
        invariant OneEachExcept(history, before, exported, todo)
        invariant history == old(history) && droppedDatapoints == old(droppedDatapoints)
        invariant ExportedExcept(before, exported, todo)
        decreases todo
      {
        var key :| key in todo;
        var rest, points := TakePoints(metrics[key]);
        var m := metrics[key].ToMetric(points);
        ExportedNext(before, exported, todo, key, m);
        ExportedFromNext(before, metrics, todo, key);
        OneEachNext(history, before, exported, todo, key, points);
        exported := exported + [m];
        metrics := metrics[key := rest];
        todo := todo - {key};
      }
      AllExported(before, metrics);
      SentLabelled(history, before, exported, metrics);
      forall key, id ensures Faithful(history + [Sent(exported)], metrics, key, id) {
        SentFaithful(history, before, exported, metrics, key, id);
      }
      history := history + [Sent(exported)];
    }
  }

  function ReceivedAll(ms: seq<Metric>): seq<HistoryEvent> {
    seq(|ms|, i requires 0 <= i < |ms| => Received(ms[i]))
  }

  /** The metrics exported so far: those of every accumulator except the ones still to do. */
  ghost predicate ExportedExcept(metrics: map<MetricKey, MetricAccumulator>, exported: seq<Metric>,
                                 todo: set<MetricKey>)
  {
    forall key, id ::
      PointsOf(exported, key, id) == if key in metrics && key !in todo then metrics[key].Taken(id) else []
  }

  /** All accumulators are as after an export, except the ones still to do. */
  ghost predicate ExportedFrom(before: map<MetricKey, MetricAccumulator>, metrics: map<MetricKey, MetricAccumulator>,
                               todo: set<MetricKey>)
  {
    && metrics.Keys == before.Keys
    && forall key :: key in metrics ==> metrics[key] == if key in todo then before[key] else before[key].AfterTake()
  }

  lemma ExportedFromNext(before: map<MetricKey, MetricAccumulator>, metrics: map<MetricKey, MetricAccumulator>,
                         todo: set<MetricKey>, own: MetricKey)
    requires ExportedFrom(before, metrics, todo) && own in todo && own in before
    ensures ExportedFrom(before, metrics[own := before[own].AfterTake()], todo - {own})
  {}

  lemma AllExported(before: map<MetricKey, MetricAccumulator>, metrics: map<MetricKey, MetricAccumulator>)
    requires ExportedFrom(before, metrics, {})
    requires forall key :: key in before ==> before[key].Valid() && before[key].key == key
    ensures forall key :: key in metrics ==> metrics[key].Valid() && metrics[key].key == key
  {
    forall key | key in metrics ensures metrics[key].Valid() && metrics[key].key == key {
      AfterTakeValid(before[key]);
    }
  }

  lemma ExportedNext(metrics: map<MetricKey, MetricAccumulator>, exported: seq<Metric>, todo: set<MetricKey>,
                     own: MetricKey, m: Metric)
    requires ExportedExcept(metrics, exported, todo) && own in todo && own in metrics
    requires m.Key() == Some(own) && TakenExcept(metrics[own], m.Points(), {})
    ensures ExportedExcept(metrics, exported + [m], todo - {own})
  {
    forall key, id
      ensures PointsOf(exported + [m], key, id)
           == if key in metrics && key !in todo - {own} then metrics[key].Taken(id) else []
    {
      PointsOfAppend(exported, [m], key, id);
      PointsOfOne(m, key, id);
      assert PointsOf(exported, key, id) == if key in metrics && key !in todo then metrics[key].Taken(id) else [];
    }
  }

  /** Cumulative sums and histograms, and summaries. */
  predicate IsOptimized(m: Metric) {
    m.data.Some? && match m.data.value
      case GaugeData(_) => false
      case SumData(_, temporality, _) => temporality == 2
      case HistogramData(_, temporality) => temporality == 2
      case SummaryData(_) => true
      case ExponentialHistogramData(_) => false
  }

  /** All the metrics received with this key are optimized, or none is. */
  ghost predicate AllOptimized(history: seq<HistoryEvent>, key: MetricKey, optimized: bool) {
    forall i :: 0 <= i < |history| && history[i].Received? && history[i].metric.Key() == Some(key) ==>
      IsOptimized(history[i].metric) == optimized
  }

  lemma OptimizedUniform(history: seq<HistoryEvent>, key: MetricKey, optimized: bool)
    requires AllOptimized(history, key, optimized)
    ensures Uniform(history, key, optimized)
  {
    forall h | h in history && h.Received? && h.metric.Key() == Some(key)
      ensures h.metric.Deduplicates() == optimized
    {
      var i :| 0 <= i < |history| && history[i] == h;
    }
  }

  /** Each series of an optimized metric comes out as the one-shot inflation of its deduplicated input,
      whatever else was accumulated and whenever exports happened. */
  lemma SeriesIsolation(history: seq<HistoryEvent>, metrics: map<MetricKey, MetricAccumulator>, key: MetricKey,
                        id: SeriesId)
    requires Faithful(history, metrics, key, id) && AllOptimized(history, key, true)
    ensures PointsSent(history, key, id) + Owed(SeriesAt(metrics, key, id))
         == Inflate(None, Retained(None, PointsReceived(history, key, id)))
  {
    OptimizedUniform(history, key, true);
    ExportScheduleIndependence(Project(history, key, id));
    ProjectReceived(history, key, id);
  }

  /** Each series of any other metric comes out as it went in. */
  lemma SeriesPassThrough(history: seq<HistoryEvent>, metrics: map<MetricKey, MetricAccumulator>, key: MetricKey,
                          id: SeriesId)
    requires Faithful(history, metrics, key, id) && AllOptimized(history, key, false)
    ensures PointsSent(history, key, id) + SeriesAt(metrics, key, id).newPoints == PointsReceived(history, key, id)
  {
    OptimizedUniform(history, key, false);
  }

  /** The value that a point of an optimized metric brought is in force from its time on until that of the
      next point of its series. */
  lemma SeriesShowsValue(history: seq<HistoryEvent>, metrics: map<MetricKey, MetricAccumulator>, key: MetricKey,
                         id: SeriesId, i: nat, t: Nanos)
    requires Faithful(history, metrics, key, id) && AllOptimized(history, key, true)
    requires var received := PointsReceived(history, key, id);
             && InTimeOrder(received) && i < |received| && received[i].time <= t
             && (i + 1 < |received| ==> t < received[i + 1].time)
    ensures var shown := LatestAt(PointsSent(history, key, id) + Owed(SeriesAt(metrics, key, id)), t);
            shown.Some? && SameValues(shown.value, PointsReceived(history, key, id)[i])
  {
    OptimizedUniform(history, key, true);
    ProjectReceived(history, key, id);
    NewValueShows(Project(history, key, id), i, t);
  }

  lemma {:induction false} AccumulatedAppend(a: seq<SeriesOp>, b: seq<SeriesOp>)
    ensures Accumulated(a + b) == Accumulated(a) + Accumulated(b)
  {
    if a == [] {
      assert a + b == b;
    } else {
      var first := if a[0].Accumulate? then [a[0].point] else [];
      assert (a + b)[0] == a[0] && (a + b)[1..] == a[1..] + b;
      AccumulatedAppend(a[1..], b);
      Associative(first, Accumulated(a[1..]), Accumulated(b));
    }
  }

  lemma {:induction false} AccumulatedAccumulations(ps: seq<DataPoint>)
    ensures Accumulated(Accumulations(ps)) == ps
  {
    if ps != [] {
      assert Accumulations(ps)[1..] == Accumulations(ps[1..]);
      AccumulatedAccumulations(ps[1..]);
    }
  }

  lemma {:induction false} ProjectReceived(history: seq<HistoryEvent>, key: MetricKey, id: SeriesId)
    ensures Accumulated(Project(history, key, id)) == PointsReceived(history, key, id)
  {
    if history != [] {
      var h := Last(history);
      ProjectReceived(history[..|history| - 1], key, id);
      AccumulatedAppend(Project(history[..|history| - 1], key, id), OpsOf(h, key, id));
      if h.Received? {
        PointsOfOne(h.metric, key, id);
        AccumulatedAccumulations(OfSeries(h.metric.Points(), id));
      } else {
        assert [SeriesOp.Export][1..] == [];
      }
    }
  }
}
