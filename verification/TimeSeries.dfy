/** One time series of the metrics accumulator: duplicates are dropped on the way in, and an export
    injects points so that `rate` works on what comes out (src/telemetry/otel_metrics.rs). */
module TimeSeries {
  import opened Sequences
  import opened DataPoints

  datatype TimeSeries = TimeSeries(previousPoint: Option<DataPoint>, newPoints: seq<DataPoint>) {
    function LastPoint(): Option<DataPoint> {
      if newPoints != [] then Some(Last(newPoints)) else previousPoint
    }

    /** One round of `accumulate_as_is`. */
    function AccumulateAsIs(p: DataPoint): TimeSeries {
      this.(newPoints := newPoints + [p])
    }

    /** One round of `accumulate_if_different`. */
    function AccumulateIfDifferent(p: DataPoint): TimeSeries {
      if LastPoint().Some? && LastPoint().value.IsEquivalent(p) then this else AccumulateAsIs(p)
    }

    function AfterExport(): TimeSeries {
      TimeSeries(LastPoint(), [])
    }

    function TakeAsIs(): (TimeSeries, seq<DataPoint>) {
      (this.(newPoints := []), newPoints)
    }
  }

  // ---------------------------------------------------------------------------
  // What an export must produce.

  /** The points that one retained point contributes, given the retained point before it. */
  function Emission(prev: Option<DataPoint>, p: DataPoint): (e: seq<DataPoint>)
    ensures 0 < |e| <= 2 && Last(e) == p
  {
    match prev
    case None =>
      if p.IsZero() then [p] else [p.ToZero(SaturatingSub(p.time, REPORT_LAST_TIME_NANOS)), p]
    case Some(q) =>
      if p.time > q.time + MAX_TIME_BETWEEN_DATA_NANOS
      then [q.WithTime(SaturatingSub(p.time, REPORT_LAST_TIME_NANOS)), p]
      else [p]
  }

  function Inflate(prev: Option<DataPoint>, ps: seq<DataPoint>): seq<DataPoint>
    decreases ps
  {
    if ps == [] then [] else Emission(prev, ps[0]) + Inflate(Some(ps[0]), ps[1..])
  }

  /** The points that differ from the point right before them in the input. */
  function Retained(prev: Option<DataPoint>, ps: seq<DataPoint>): seq<DataPoint>
    decreases ps
  {
    if ps == [] then []
    else if prev.Some? && prev.value.IsEquivalent(ps[0]) then Retained(Some(ps[0]), ps[1..])
    else [ps[0]] + Retained(Some(ps[0]), ps[1..])
  }

  lemma {:induction false} InflateAppend(prev: Option<DataPoint>, a: seq<DataPoint>, b: seq<DataPoint>)
    ensures Inflate(prev, a + b) == Inflate(prev, a) + Inflate(TimeSeries(prev, a).LastPoint(), b)
    decreases a
  {
    if a == [] {
      assert a + b == b;
    } else {
      assert (a + b)[0] == a[0] && (a + b)[1..] == a[1..] + b;
      InflateAppend(Some(a[0]), a[1..], b);
      Associative(Emission(prev, a[0]), Inflate(Some(a[0]), a[1..]), Inflate(TimeSeries(prev, a).LastPoint(), b));
    }
  }

  lemma InflateNext(prev: Option<DataPoint>, ps: seq<DataPoint>, i: nat)
    requires i < |ps|
    ensures Inflate(prev, ps[..i + 1])
         == Inflate(prev, ps[..i]) + Emission(TimeSeries(prev, ps[..i]).LastPoint(), ps[i])
    ensures TimeSeries(prev, ps[..i + 1]).LastPoint() == Some(ps[i])
  {
    var before := TimeSeries(prev, ps[..i]).LastPoint();
    assert ps[..i + 1] == ps[..i] + [ps[i]];
    InflateAppend(prev, ps[..i], [ps[i]]);
    assert Inflate(before, [ps[i]]) == Emission(before, ps[i]) + Inflate(Some(ps[i]), []);
  }

  /** `take_and_inflate_data_points` */
  method TakeAndInflateDataPoints(ts: TimeSeries) returns (rest: TimeSeries, output: seq<DataPoint>)
    ensures output == Inflate(ts.previousPoint, ts.newPoints)
    ensures rest == ts.AfterExport()
  {
    output := [];
    if ts.newPoints == [] {
      return ts, output;
    }
    var prev: DataPoint;
    var i: nat := 0;
    if ts.previousPoint.Some? {
      prev := ts.previousPoint.value;
    } else {
      var first := ts.newPoints[0];
      InflateNext(None, ts.newPoints, 0);
      if !first.IsZero() {
        var zero := first.ToZero(SaturatingSub(first.time, REPORT_LAST_TIME_NANOS));
        output := output + [zero];
      }
      output := output + [first];
      prev := first;
      i := 1;
    }
    ghost var done := output;
    while i < |ts.newPoints|
      invariant i <= |ts.newPoints|
      invariant done == Inflate(ts.previousPoint, ts.newPoints[..i]) && output == done
      invariant Some(prev) == TimeSeries(ts.previousPoint, ts.newPoints[..i]).LastPoint()
      invariant i > 0 ==> output != [] && Last(output) == prev
    {
      var point := ts.newPoints[i];
      InflateNext(ts.previousPoint, ts.newPoints, i);
      done := done + Emission(Some(prev), point);
      if point.time > prev.time + MAX_TIME_BETWEEN_DATA_NANOS {
        output := output + [prev.WithTime(SaturatingSub(point.time, REPORT_LAST_TIME_NANOS)), point];
      } else {
        output := output + [point];
      }
      prev := Last(output);
      i := i + 1;
    }
    assert ts.newPoints[..i] == ts.newPoints;
    rest := TimeSeries(Some(Last(output)), []);
  }

  // ---------------------------------------------------------------------------
  // Export-schedule independence.

  datatype SeriesOp = Accumulate(point: DataPoint) | Export

  function Accumulated(ops: seq<SeriesOp>): seq<DataPoint> {
    if ops == [] then []
    else (if ops[0].Accumulate? then [ops[0].point] else []) + Accumulated(ops[1..])
  }

  /** A series together with everything its exports have emitted so far. */
  datatype Exporter = Exporter(series: TimeSeries, exported: seq<DataPoint>) {
    function Step(op: SeriesOp): Exporter {
      match op
      case Accumulate(p) => this.(series := series.AccumulateIfDifferent(p))
      case Export => Exporter(series.AfterExport(), exported + Owed(series))
    }

    function Run(ops: seq<SeriesOp>): Exporter
      decreases ops
    {
      if ops == [] then this else Step(ops[0]).Run(ops[1..])
    }

    /** What a final export would bring the output to. */
    function Total(): seq<DataPoint> {
      exported + Owed(series)
    }
  }

  const NEW_EXPORTER := Exporter(TimeSeries(None, []), [])

  /** What an export would emit right now. */
  function Owed(ts: TimeSeries): seq<DataPoint> {
    Inflate(ts.previousPoint, ts.newPoints)
  }

  lemma RetainedCongruence(p: DataPoint, q: DataPoint, ps: seq<DataPoint>)
    requires p.IsEquivalent(q)
    ensures Retained(Some(p), ps) == Retained(Some(q), ps)
  {}

  /** Everything the series will have emitted once `later` has been accumulated as well. */
  function Eventually(ts: TimeSeries, later: seq<DataPoint>): seq<DataPoint> {
    Inflate(ts.previousPoint, ts.newPoints + Retained(ts.LastPoint(), later))
  }

  lemma AccumulateEventually(ts: TimeSeries, p: DataPoint, later: seq<DataPoint>)
    ensures Eventually(ts.AccumulateIfDifferent(p), later) == Eventually(ts, [p] + later)
  {
    var last := ts.LastPoint();
    assert ([p] + later)[1..] == later;
    if last.Some? && last.value.IsEquivalent(p) {
      RetainedCongruence(last.value, p, later);
    } else {
      assert ts.newPoints + ([p] + Retained(Some(p), later)) == ts.newPoints + [p] + Retained(Some(p), later);
    }
  }

  lemma ExportEventually(ts: TimeSeries, later: seq<DataPoint>)
    ensures Owed(ts) + Eventually(ts.AfterExport(), later) == Eventually(ts, later)
  {
    var r := Retained(ts.LastPoint(), later);
    assert [] + r == r;
    InflateAppend(ts.previousPoint, ts.newPoints, r);
  }

  lemma {:induction false} ScheduleFrom(e: Exporter, ops: seq<SeriesOp>)
    ensures e.Run(ops).Total() == e.exported + Eventually(e.series, Accumulated(ops))
    decreases ops
  {
    if ops == [] {
      assert e.series.newPoints + [] == e.series.newPoints;
    } else {
      var later := Accumulated(ops[1..]);
      ScheduleFrom(e.Step(ops[0]), ops[1..]);
      if ops[0].Accumulate? {
        AccumulateEventually(e.series, ops[0].point, later);
      } else {
        ExportEventually(e.series, later);
        assert Accumulated(ops) == [] + later == later;
        assert (e.exported + Owed(e.series)) + Eventually(e.series.AfterExport(), later)
            == e.exported + (Owed(e.series) + Eventually(e.series.AfterExport(), later));
      }
    }
  }

  /** However exports are scheduled among the accumulations, everything exported plus what is still
      owed is the one-shot inflation of the deduplicated input. */
  lemma ExportScheduleIndependence(ops: seq<SeriesOp>)
    ensures NEW_EXPORTER.Run(ops).Total() == Inflate(None, Retained(None, Accumulated(ops)))
  {
    ScheduleFrom(NEW_EXPORTER, ops);
    var r := Retained(None, Accumulated(ops));
    assert [] + r == r;
    assert [] + Inflate(None, r) == Inflate(None, r);
  }

  // ---------------------------------------------------------------------------
  // The step function that a series denotes.

  ghost predicate InTimeOrder(ps: seq<DataPoint>) {
    forall i, j :: 0 <= i <= j < |ps| ==> ps[i].time <= ps[j].time
  }

  /** The last point at or before t. */
  function LatestAt(ps: seq<DataPoint>, t: Nanos): Option<DataPoint> {
    if ps == [] then None
    else if Last(ps).time <= t then Some(Last(ps))
    else LatestAt(ps[..|ps| - 1], t)
  }

  lemma {:induction false} LatestAtAppend(a: seq<DataPoint>, b: seq<DataPoint>, t: Nanos)
    ensures LatestAt(a + b, t) == if LatestAt(b, t).Some? then LatestAt(b, t) else LatestAt(a, t)
  {
    if b == [] {
      assert a + b == a;
    } else {
      assert (a + b)[..|a + b| - 1] == a + b[..|b| - 1];
      LatestAtAppend(a, b[..|b| - 1], t);
    }
  }

  /** The value at t when `carried` held before the first of ps. */
  function ValueAt(carried: DataPoint, ps: seq<DataPoint>, t: Nanos): DataPoint {
    if LatestAt(ps, t).Some? then LatestAt(ps, t).value else carried
  }

  lemma ValueAtFirst(carried: DataPoint, p: DataPoint, rest: seq<DataPoint>, t: Nanos)
    ensures ValueAt(carried, [p] + rest, t) == ValueAt(if p.time <= t then p else carried, rest, t)
  {
    LatestAtAppend([p], rest, t);
  }

  lemma {:induction false} AfterNothing(ps: seq<DataPoint>, t: Nanos)
    requires forall i :: 0 <= i < |ps| ==> t < ps[i].time
    ensures LatestAt(ps, t).None?
  {
    if ps != [] {
      AfterNothing(ps[..|ps| - 1], t);
    }
  }

  /** Past the points up to t, only points after t follow. */
  lemma {:induction false} ValueAtBefore(carried: DataPoint, ps: seq<DataPoint>, t: Nanos)
    requires forall i :: 0 <= i < |ps| ==> t < ps[i].time
    ensures ValueAt(carried, ps, t) == carried
  {
    if ps != [] {
      ValueAtBefore(carried, ps[..|ps| - 1], t);
    }
  }

  lemma {:induction false} RetainedOrder(prev: Option<DataPoint>, ps: seq<DataPoint>)
    requires InTimeOrder(ps)
    ensures InTimeOrder(Retained(prev, ps))
    ensures forall p :: p in Retained(prev, ps) ==> p in ps && p.time >= ps[0].time
    decreases ps
  {
    if ps != [] {
      RetainedOrder(Some(ps[0]), ps[1..]);
    }
  }

  /** Inflating points that lie after q, in order, yields only points after q, in order. */
  lemma {:induction false} InflateOrder(q: DataPoint, ps: seq<DataPoint>)
    requires InTimeOrder(ps) && (ps != [] ==> q.time <= ps[0].time)
    ensures InTimeOrder(Inflate(Some(q), ps))
    decreases ps
  {
    if ps != [] {
      InflateOrder(ps[0], ps[1..]);
      InflateNotBefore(ps[0], ps[1..]);
    }
  }

  lemma {:induction false} InflateNotBefore(q: DataPoint, ps: seq<DataPoint>)
    requires InTimeOrder(ps) && (ps != [] ==> q.time <= ps[0].time)
    ensures forall p :: p in Inflate(Some(q), ps) ==> q.time <= p.time
    decreases ps
  {
    if ps != [] {
      InflateNotBefore(ps[0], ps[1..]);
    }
  }

  /** Before the next retained point, only a copy of the last one can have been injected. */
  lemma ValueInGap(last: DataPoint, r: seq<DataPoint>, t: Nanos)
    requires InTimeOrder(r) && last.time <= t && (r != [] ==> t < r[0].time)
    ensures ValueAt(last, Inflate(Some(last), r), t).IsEquivalent(last)
  {
    if r != [] {
      var p := r[0];
      var rest := Inflate(Some(p), r[1..]);
      InflateNotBefore(p, r[1..]);
      var copies := CopyBefore(last, p);
      ValueOfCopies(last, copies, p, rest, t);
      assert Inflate(Some(last), r) == (copies + [p]) + rest;
    }
  }

  lemma CopyBefore(q: DataPoint, p: DataPoint) returns (copies: seq<DataPoint>)
    ensures Emission(Some(q), p) == copies + [p]
    ensures |copies| <= 1 && forall c :: c in copies ==> c.IsEquivalent(q)
  {
    copies := Emission(Some(q), p)[..|Emission(Some(q), p)| - 1];
  }

  lemma ValueOfCopies(q: DataPoint, copies: seq<DataPoint>, p: DataPoint, rest: seq<DataPoint>, t: Nanos)
    requires |copies| <= 1 && forall c :: c in copies ==> c.IsEquivalent(q)
    requires t < p.time && forall r :: r in rest ==> p.time <= r.time
    ensures ValueAt(q, (copies + [p]) + rest, t).IsEquivalent(q)
  {
    assert (copies + [p]) + rest == copies + ([p] + rest);
    LatestAtAppend(copies, [p] + rest, t);
    AfterNothing([p] + rest, t);
  }

  /** From a retained point `last` and the input point `prev` it stands for, dropping repetitions and
      injecting copies leaves the value at t alone. */
  lemma {:induction false} DenotationFrom(last: DataPoint, prev: DataPoint, ps: seq<DataPoint>, t: Nanos)
    requires InTimeOrder(ps) && (ps != [] ==> prev.time <= ps[0].time)
    requires last.time <= prev.time <= t
    requires last.IsEquivalent(prev)
    ensures ValueAt(last, Inflate(Some(last), Retained(Some(prev), ps)), t).IsEquivalent(ValueAt(prev, ps, t))
    decreases ps
  {
    var r := Retained(Some(prev), ps);
    if ps == [] {
    } else if t < ps[0].time {
      ValueAtBefore(prev, ps, t);
      RetainedOrder(Some(prev), ps);
      ValueInGap(last, r, t);
    } else {
      var p, rest := ps[0], ps[1..];
      assert ps == [p] + rest;
      ValueAtFirst(prev, p, rest, t);
      if prev.IsEquivalent(p) {
        DenotationFrom(last, p, rest, t);
      } else {
        DenotationFrom(p, p, rest, t);
        assert r[0] == p && r[1..] == Retained(Some(p), rest);
        ValueAfterEmission(Some(last), p, Inflate(Some(p), r[1..]), last, t);
      }
    }
  }

  lemma ValueAfterEmission(prev: Option<DataPoint>, p: DataPoint, tail: seq<DataPoint>, carried: DataPoint, t: Nanos)
    requires p.time <= t
    ensures ValueAt(carried, Emission(prev, p) + tail, t) == ValueAt(p, tail, t)
    ensures LatestAt(Emission(prev, p) + tail, t).Some?
  {
    var e := Emission(prev, p);
    assert e == e[..|e| - 1] + [p];
    LatestAtAppend(e, tail, t);
  }

  /** Both sequences denote the same step function at t: from the first input point on the values
      agree up to equivalence, and before it the output is absent or zero. */
  ghost predicate SameValueAt(output: seq<DataPoint>, input: seq<DataPoint>, t: Nanos) {
    if input != [] && input[0].time <= t
    then LatestAt(output, t).Some? && LatestAt(input, t).Some?
         && LatestAt(output, t).value.IsEquivalent(LatestAt(input, t).value)
    else LatestAt(output, t).None? || LatestAt(output, t).value.IsZero()
  }

  lemma DenotesFromFirst(p: DataPoint, rest: seq<DataPoint>, t: Nanos)
    requires InTimeOrder(rest) && (rest != [] ==> p.time <= rest[0].time)
    requires p.time <= t
    ensures SameValueAt(Emission(None, p) + Inflate(Some(p), Retained(Some(p), rest)), [p] + rest, t)
  {
    LatestAtAppend([p], rest, t);
    ValueAtFirst(p, p, rest, t);
    ValueAfterEmission(None, p, Inflate(Some(p), Retained(Some(p), rest)), p, t);
    DenotationFrom(p, p, rest, t);
  }

  lemma NothingBeforeFirst(p: DataPoint, tail: seq<DataPoint>, t: Nanos)
    requires t < p.time && forall q :: q in tail ==> p.time <= q.time
    ensures var output := Emission(None, p) + tail;
            LatestAt(output, t).None? || LatestAt(output, t).value.IsZero()
  {
    var front := Emission(None, p)[..|Emission(None, p)| - 1];
    assert Emission(None, p) + tail == front + ([p] + tail);
    LatestAtAppend(front, [p] + tail, t);
    AfterNothing([p] + tail, t);
  }

  /** What is exported denotes the same step function as what was accumulated. */
  lemma DenotationPreserved(ops: seq<SeriesOp>, t: Nanos)
    requires InTimeOrder(Accumulated(ops))
    ensures SameValueAt(NEW_EXPORTER.Run(ops).Total(), Accumulated(ops), t)
  {
    ExportScheduleIndependence(ops);
    var input := Accumulated(ops);
    if input != [] {
      var p, rest := input[0], input[1..];
      assert input == [p] + rest;
      if p.time <= t {
        DenotesFromFirst(p, rest, t);
      } else {
        RetainedOrder(Some(p), rest);
        InflateNotBefore(p, Retained(Some(p), rest));
        NothingBeforeFirst(p, Inflate(Some(p), Retained(Some(p), rest)), t);
      }
    }
  }

  // ---------------------------------------------------------------------------
  // Rate continuity.

  lemma LandsAtEnd(prev: Option<DataPoint>, ps: seq<DataPoint>, j: nat)
    requires j < |ps|
    ensures Inflate(prev, ps[..j + 1]) != [] && Last(Inflate(prev, ps[..j + 1])) == ps[j]
  {
    InflateNext(prev, ps, j);
  }

  lemma InflatePrefix(prev: Option<DataPoint>, ps: seq<DataPoint>, j: nat)
    requires j <= |ps|
    ensures Inflate(prev, ps[..j]) <= Inflate(prev, ps)
  {
    assert ps == ps[..j] + ps[j..];
    InflateAppend(prev, ps[..j], ps[j..]);
  }

  /** Where the j-th retained point lands in the output. */
  function PositionOf(ps: seq<DataPoint>, j: nat): (r: nat)
    requires j < |ps|
    ensures r < |Inflate(None, ps)| && Inflate(None, ps)[r] == ps[j]
    ensures j == |ps| - 1 ==> r == |Inflate(None, ps)| - 1
  {
    LandsAtEnd(None, ps, j);
    InflatePrefix(None, ps, j + 1);
    assert j == |ps| - 1 ==> ps[..j + 1] == ps;
    |Inflate(None, ps[..j + 1])| - 1
  }

  /** The first retained point opens the output, after a zero unless it is one itself. */
  lemma FirstPosition(ps: seq<DataPoint>)
    requires ps != []
    ensures var out := Inflate(None, ps);
            if ps[0].IsZero() then PositionOf(ps, 0) == 0
            else
              && PositionOf(ps, 0) == 1
              && out[0].IsZero()
              && out[0].time <= ps[0].time <= out[0].time + 30_000_000_000
  {
    InflateNext(None, ps, 0);
    assert ps == ps[..1] + ps[1..];
    InflateAppend(None, ps[..1], ps[1..]);
  }

  /** What one retained point contributes after another one. */
  lemma EmissionAfter(q: DataPoint, p: DataPoint)
    requires q.time <= p.time
    ensures var e := Emission(Some(q), p);
            && e != [] && Last(e) == p
            && if p.time <= q.time + 35_000_000_000 then |e| == 1
               else |e| == 2
                    && e[0] == q.WithTime(e[0].time)
                    && q.time + 5_000_000_000 < e[0].time
                    && e[0].time + 30_000_000_000 == p.time
  {}

  lemma SplitAt(ps: seq<DataPoint>, j: nat) returns (head: seq<DataPoint>, e: seq<DataPoint>, tail: seq<DataPoint>)
    requires j + 1 < |ps|
    ensures Inflate(None, ps) == head + e + tail
    ensures |head| == PositionOf(ps, j) + 1 && |head| + |e| == PositionOf(ps, j + 1) + 1
    ensures e == Emission(Some(ps[j]), ps[j + 1])
  {
    head := Inflate(None, ps[..j + 1]);
    e := Emission(Some(ps[j]), ps[j + 1]);
    tail := Inflate(Some(ps[j + 1]), ps[j + 2..]);
    InflateNext(None, ps, j + 1);
    assert ps == ps[..j + 2] + ps[j + 2..];
    InflateAppend(None, ps[..j + 2], ps[j + 2..]);
  }

  /** Between two retained points there is at most one injected point: a copy of the first, more than
      5 s after it and exactly 30 s before the second, present exactly when they are more than 35 s apart. */
  lemma NextPosition(ps: seq<DataPoint>, j: nat)
    requires InTimeOrder(ps) && j + 1 < |ps|
    ensures var out := Inflate(None, ps);
            var q, r := PositionOf(ps, j), PositionOf(ps, j + 1);
            if ps[j + 1].time <= ps[j].time + 35_000_000_000 then r == q + 1
            else r == q + 2
                 && out[q + 1] == ps[j].WithTime(out[q + 1].time)
                 && ps[j].time + 5_000_000_000 < out[q + 1].time
                 && out[q + 1].time + 30_000_000_000 == ps[j + 1].time
  {
    var head, e, tail := SplitAt(ps, j);
    EmissionAfter(ps[j], ps[j + 1]);
    assert |e| == 2 ==> Inflate(None, ps)[PositionOf(ps, j) + 1] == e[0];
  }

  lemma {:induction false} InflateSize(prev: Option<DataPoint>, ps: seq<DataPoint>)
    ensures |ps| <= |Inflate(prev, ps)| <= 2 * |ps|
    decreases ps
  {
    if ps != [] {
      InflateSize(Some(ps[0]), ps[1..]);
    }
  }

  lemma Predecessor(ps: seq<DataPoint>, j: nat)
    requires InTimeOrder(ps) && j < |ps|
    ensures var out, r := Inflate(None, ps), PositionOf(ps, j);
            && (r == 0 ==> j == 0 && ps[0].IsZero())
            && (r > 0 ==> out[r - 1].time <= ps[j].time <= out[r - 1].time + 35_000_000_000)
  {
    if j == 0 {
      FirstPosition(ps);
    } else {
      NextPosition(ps, j - 1);
    }
  }

  lemma InflationInOrder(ps: seq<DataPoint>)
    requires InTimeOrder(ps)
    ensures InTimeOrder(Inflate(None, ps))
  {
    if ps != [] {
      var tail := Inflate(Some(ps[0]), ps[1..]);
      InflateOrder(ps[0], ps[1..]);
      InflateNotBefore(ps[0], ps[1..]);
      forall q | q in Emission(None, ps[0]) ensures q.time <= ps[0].time {}
      assert InTimeOrder(Emission(None, ps[0]));
    }
  }

  /** Every retained point, except an initial zero, has an exported predecessor at most 35 s earlier,
      the output is in time order and at most twice as long as what was retained. */
  lemma RateContinuity(ops: seq<SeriesOp>)
    requires InTimeOrder(Accumulated(ops))
    ensures var ps, out := Retained(None, Accumulated(ops)), NEW_EXPORTER.Run(ops).Total();
            && InTimeOrder(out)
            && |out| <= 2 * |ps|
            && forall j :: 0 <= j < |ps| ==>
                 var r := PositionOf(ps, j);
                 && r < |out| && out[r] == ps[j]
                 && (r == 0 ==> j == 0 && ps[0].IsZero())
                 && (r > 0 ==> out[r - 1].time <= ps[j].time <= out[r - 1].time + 35_000_000_000)
  {
    ExportScheduleIndependence(ops);
    RetainedOrder(None, Accumulated(ops));
    var ps := Retained(None, Accumulated(ops));
    InflateSize(None, ps);
    InflationInOrder(ps);
    forall j | 0 <= j < |ps|
      ensures var out, r := Inflate(None, ps), PositionOf(ps, j);
              && (r == 0 ==> j == 0 && ps[0].IsZero())
              && (r > 0 ==> out[r - 1].time <= ps[j].time <= out[r - 1].time + 35_000_000_000)
    {
      Predecessor(ps, j);
    }
  }
}
