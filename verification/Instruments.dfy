/** The platform-metric instruments, written separately from the metrics accumulator, and the proof that
    they perform the same transformation (src/telemetry/processor/platform_metrics/instruments.rs). */
module Instruments {
  import opened Sequences
  import opened DataPoints
  import opened TimeSeries

  /** What happens to an instrument: a measurement, or a report at some time. */
  datatype InstrumentOp<V> = Record(value: V) | Report(time: Nanos)

  // ---------------------------------------------------------------------------
  // Reporting sample by sample.

  /** What is emitted when a sample is reported only if it differs from the last reported one. */
  function ReportSample(last: DataPoint, sample: DataPoint): seq<DataPoint> {
    if last.IsEquivalent(sample) then [] else Emission(Some(last), sample)
  }

  function ReportAll(last: DataPoint, samples: seq<DataPoint>): seq<DataPoint>
    decreases samples
  {
    if samples == [] then []
    else ReportSample(last, samples[0])
         + ReportAll(if last.IsEquivalent(samples[0]) then last else samples[0], samples[1..])
  }

  lemma ReportAllNext(last: DataPoint, sample: DataPoint, rest: seq<DataPoint>)
    ensures ReportAll(last, [sample] + rest)
         == ReportSample(last, sample) + ReportAll(if last.IsEquivalent(sample) then last else sample, rest)
  {
    assert ([sample] + rest)[1..] == rest;
  }

  /** Reporting sample by sample is what the accumulator does to a series whose previous point is `last`. */
  lemma {:induction false} ReportAllInflates(last: DataPoint, prev: DataPoint, samples: seq<DataPoint>)
    requires last.IsEquivalent(prev)
    ensures ReportAll(last, samples) == Inflate(Some(last), Retained(Some(prev), samples))
    decreases samples
  {
    if samples != [] {
      var sample, rest := samples[0], samples[1..];
      if last.IsEquivalent(sample) {
        ReportAllInflates(last, sample, rest);
      } else {
        ReportAllInflates(sample, sample, rest);
      }
    }
  }

  // ---------------------------------------------------------------------------
  // Counter.

  function CounterPoint(start: nat, time: Nanos, count: int): DataPoint {
    Number([], start, time, 0, Some(AsInt(count)), [])
  }

  datatype CounterState = CounterState(count: int, lastCount: int, lastReport: Nanos) {
    function Step(op: InstrumentOp<int>): CounterState {
      match op
      case Record(v) => this.(count := count + v)
      case Report(t) => if count != lastCount then CounterState(count, count, t) else this
    }

    function Emits(start: nat, op: InstrumentOp<int>): seq<DataPoint> {
      match op
      case Record(_) => []
      case Report(t) =>
        if count == lastCount then []
        else (if t > lastReport + MAX_TIME_BETWEEN_DATA_NANOS
              then [CounterPoint(start, t - REPORT_LAST_TIME_NANOS, lastCount)] else [])
             + [CounterPoint(start, t, count)]
    }

    /** Everything a run of records and reports emits. */
    function Output(start: nat, ops: seq<InstrumentOp<int>>): seq<DataPoint>
      decreases ops
    {
      if ops == [] then [] else Emits(start, ops[0]) + Step(ops[0]).Output(start, ops[1..])
    }
  }

  const NEW_COUNTER := CounterState(0, 0, 0)

  /** The running total at each report. */
  function CounterSamples(start: nat, total: int, ops: seq<InstrumentOp<int>>): seq<DataPoint>
    decreases ops
  {
    if ops == [] then []
    else match ops[0]
      case Record(v) => CounterSamples(start, total + v, ops[1..])
      case Report(t) => [Number([], start, t, 0, Some(AsInt(total)), [])] + CounterSamples(start, total, ops[1..])
  }

  class Counter {
    var count: int
    var lastCount: int
    var lastReportTimestamp: Nanos

    constructor ()
      ensures View() == NEW_COUNTER
    {
      count, lastCount, lastReportTimestamp := 0, 0, 0;
    }

    function View(): CounterState
      reads this
    {
      CounterState(count, lastCount, lastReportTimestamp)
    }

    method Record(value: int)
      modifies this
      ensures View() == old(View()).Step(InstrumentOp.Record(value))
    {
      count := count + value;
    }

    /** None when there is nothing new to report. */
    method Report(start: nat, timestamp: Nanos) returns (points: Option<seq<DataPoint>>)
      modifies this
      ensures View() == old(View()).Step(InstrumentOp.Report(timestamp))
      ensures points.None? <==> old(View()).Emits(start, InstrumentOp.Report(timestamp)) == []
      ensures points.Some? ==> points.value == old(View()).Emits(start, InstrumentOp.Report(timestamp))
    {
      if count != lastCount {
        var v := [];
        if timestamp > lastReportTimestamp + MAX_TIME_BETWEEN_DATA_NANOS {
          v := v + [CounterPoint(start, timestamp - REPORT_LAST_TIME_NANOS, lastCount)];
        }
        v := v + [CounterPoint(start, timestamp, count)];
        lastCount := count;
        lastReportTimestamp := timestamp;
        points := Some(v);
      } else {
        points := None;
      }
    }
  }

  lemma CounterReportsSample(s: CounterState, start: nat, t: Nanos)
    ensures s.Emits(start, InstrumentOp.Report(t))
         == ReportSample(CounterPoint(start, s.lastReport, s.lastCount), CounterPoint(start, t, s.count))
  {}

  lemma {:induction false} CounterReportsSamples(s: CounterState, start: nat, ops: seq<InstrumentOp<int>>)
    ensures s.Output(start, ops)
         == ReportAll(CounterPoint(start, s.lastReport, s.lastCount), CounterSamples(start, s.count, ops))
    decreases ops
  {
    if ops != [] {
      CounterReportsSamples(s.Step(ops[0]), start, ops[1..]);
      if ops[0].Report? {
        CounterReportsSample(s, start, ops[0].time);
        ReportAllNext(CounterPoint(start, s.lastReport, s.lastCount), CounterPoint(start, ops[0].time, s.count),
                      CounterSamples(start, s.count, ops[1..]));
      }
    }
  }

  /** A counter emits what the accumulator would make of its running totals, seeded with a zero at time 0. */
  lemma CounterAgreesWithAccumulator(start: nat, ops: seq<InstrumentOp<int>>)
    ensures var seed := Some(Number([], start, 0, 0, Some(AsInt(0)), []));
            NEW_COUNTER.Output(start, ops) == Inflate(seed, Retained(seed, CounterSamples(start, 0, ops)))
  {
    var seed := CounterPoint(start, 0, 0);
    CounterReportsSamples(NEW_COUNTER, start, ops);
    ReportAllInflates(seed, seed, CounterSamples(start, 0, ops));
  }

  // ---------------------------------------------------------------------------
  // Summary, with real-valued sums.

  function SummaryPoint(start: nat, time: Nanos, sum: real, count: nat): DataPoint {
    DataPoint.Summary([], start, time, 0, count, sum, [])
  }

  datatype SummaryState = SummaryState(sum: real, count: nat, lastSum: real, lastCount: nat, lastReport: Nanos) {
    function Step(op: InstrumentOp<real>): SummaryState {
      match op
      case Record(v) => this.(sum := sum + v, count := count + 1)
      case Report(t) => if count != lastCount then SummaryState(sum, count, sum, count, t) else this
    }

    function Emits(start: nat, op: InstrumentOp<real>): seq<DataPoint> {
      match op
      case Record(_) => []
      case Report(t) =>
        if count == lastCount then []
        else (if t > lastReport + MAX_TIME_BETWEEN_DATA_NANOS
              then [SummaryPoint(start, t - REPORT_LAST_TIME_NANOS, lastSum, lastCount)] else [])
             + [SummaryPoint(start, t, sum, count)]
    }

    function Output(start: nat, ops: seq<InstrumentOp<real>>): seq<DataPoint>
      decreases ops
    {
      if ops == [] then [] else Emits(start, ops[0]) + Step(ops[0]).Output(start, ops[1..])
    }

    /** Since every record raises the count, an unchanged count means an unchanged sum. */
    ghost predicate Valid() {
      lastCount <= count && (lastCount == count ==> lastSum == sum)
    }
  }

  const NEW_SUMMARY := SummaryState(0.0, 0, 0.0, 0, 0)

  function SummarySamples(start: nat, sum: real, count: nat, ops: seq<InstrumentOp<real>>): seq<DataPoint>
    decreases ops
  {
    if ops == [] then []
    else match ops[0]
      case Record(v) => SummarySamples(start, sum + v, count + 1, ops[1..])
      case Report(t) =>
        [DataPoint.Summary([], start, t, 0, count, sum, [])] + SummarySamples(start, sum, count, ops[1..])
  }

  class Summary {
    var sum: real
    var count: nat
    var lastSum: real
    var lastCount: nat
    var lastReportTimestamp: Nanos

    constructor ()
      ensures View() == NEW_SUMMARY
    {
      sum, count, lastSum, lastCount, lastReportTimestamp := 0.0, 0, 0.0, 0, 0;
    }

    function View(): SummaryState
      reads this
    {
      SummaryState(sum, count, lastSum, lastCount, lastReportTimestamp)
    }

    method Record(value: real)
      modifies this
      ensures View() == old(View()).Step(InstrumentOp.Record(value))
    {
      sum := sum + value;
      count := count + 1;
    }

    method Report(start: nat, timestamp: Nanos) returns (points: Option<seq<DataPoint>>)
      modifies this
      ensures View() == old(View()).Step(InstrumentOp.Report(timestamp))
      ensures points.None? <==> old(View()).Emits(start, InstrumentOp.Report(timestamp)) == []
      ensures points.Some? ==> points.value == old(View()).Emits(start, InstrumentOp.Report(timestamp))
    {
      if count != lastCount {
        var v := [];
        if timestamp > lastReportTimestamp + MAX_TIME_BETWEEN_DATA_NANOS {
          v := v + [SummaryPoint(start, timestamp - REPORT_LAST_TIME_NANOS, lastSum, lastCount)];
        }
        v := v + [SummaryPoint(start, timestamp, sum, count)];
        lastSum := sum;
        lastCount := count;
        lastReportTimestamp := timestamp;
        points := Some(v);
      } else {
        points := None;
      }
    }
  }

  lemma SummaryReportsSample(s: SummaryState, start: nat, t: Nanos)
    requires s.Valid()
    ensures s.Emits(start, InstrumentOp.Report(t))
         == ReportSample(SummaryPoint(start, s.lastReport, s.lastSum, s.lastCount),
                         SummaryPoint(start, t, s.sum, s.count))
  {}

  lemma {:induction false} SummaryReportsSamples(s: SummaryState, start: nat, ops: seq<InstrumentOp<real>>)
    requires s.Valid()
    ensures s.Output(start, ops)
         == ReportAll(SummaryPoint(start, s.lastReport, s.lastSum, s.lastCount),
                      SummarySamples(start, s.sum, s.count, ops))
    decreases ops
  {
    if ops != [] {
      SummaryReportsSamples(s.Step(ops[0]), start, ops[1..]);
      if ops[0].Report? {
        SummaryReportsSample(s, start, ops[0].time);
        ReportAllNext(SummaryPoint(start, s.lastReport, s.lastSum, s.lastCount),
                      SummaryPoint(start, ops[0].time, s.sum, s.count),
                      SummarySamples(start, s.sum, s.count, ops[1..]));
      }
    }
  }

  /** The same for a summary, although it compares only the counts. */
  lemma SummaryAgreesWithAccumulator(start: nat, ops: seq<InstrumentOp<real>>)
    ensures var seed := Some(DataPoint.Summary([], start, 0, 0, 0, 0.0, []));
            NEW_SUMMARY.Output(start, ops) == Inflate(seed, Retained(seed, SummarySamples(start, 0.0, 0, ops)))
  {
    var seed := SummaryPoint(start, 0, 0.0, 0);
    SummaryReportsSamples(NEW_SUMMARY, start, ops);
    ReportAllInflates(seed, seed, SummarySamples(start, 0.0, 0, ops));
  }
}
