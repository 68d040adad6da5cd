/** What comparing and clearing data points means, field by field, and what a whole run exports as a
    consequence (src/telemetry/otel_metrics.rs). */
module PointLaws {
  import opened Sequences
  import opened DataPoints
  import opened TimeSeries

  // ---------------------------------------------------------------------------
  // One point.

  /** Two points of one kind with the same flags and the same measured fields. */
  ghost predicate SameValues(p: DataPoint, q: DataPoint) {
    && p.flags == q.flags
    && match p
       case Number(_, _, _, _, _, _) => q.Number? && p.number == q.number
       case Histogram(_, _, _, _, _, _, _, _, _, _, _) =>
         && q.Histogram?
         && p.count == q.count
         && p.histogramSum == q.histogramSum
         && p.min == q.min
         && p.max == q.max
         && p.bucketCounts == q.bucketCounts
         && p.explicitBounds == q.explicitBounds
       case Summary(_, _, _, _, _, _, _) =>
         q.Summary? && p.count == q.count && p.summarySum == q.summarySum && p.quantiles == q.quantiles
  }

  predicate ZeroOrAbsent(x: Option<real>) {
    x.Some? ==> x.value == 0.0
  }

  /** Nothing has been measured yet. */
  ghost predicate AllZero(p: DataPoint) {
    match p
    case Number(_, _, _, _, _, _) =>
      p.number.Some? ==> p.number.value == (if p.number.value.AsInt? then AsInt(0) else AsDouble(0.0))
    case Histogram(_, _, _, _, _, _, _, _, _, _, _) =>
      && p.count == 0
      && ZeroOrAbsent(p.histogramSum) && ZeroOrAbsent(p.min) && ZeroOrAbsent(p.max)
      && forall i :: 0 <= i < |p.bucketCounts| ==> p.bucketCounts[i] == 0
    case Summary(_, _, _, _, _, _, _) =>
      && p.count == 0 && p.summarySum == 0.0
      && forall i :: 0 <= i < |p.quantiles| ==> p.quantiles[i].value == 0.0
  }

  /** The same optional fields, bounds and quantiles are there, whatever they hold. */
  ghost predicate SameShape(p: DataPoint, q: DataPoint) {
    && p.attributes == q.attributes && p.startTime == q.startTime && p.flags == q.flags
    && match p
       case Number(_, _, _, _, _, _) =>
         && q.Number? && p.exemplars == q.exemplars
         && p.number.Some? == q.number.Some?
         && (p.number.Some? ==> p.number.value.AsInt? == q.number.value.AsInt?)
       case Histogram(_, _, _, _, _, _, _, _, _, _, _) =>
         && q.Histogram? && p.exemplars == q.exemplars
         && p.histogramSum.Some? == q.histogramSum.Some?
         && p.min.Some? == q.min.Some?
         && p.max.Some? == q.max.Some?
         && |p.bucketCounts| == |q.bucketCounts|
         && p.explicitBounds == q.explicitBounds
       case Summary(_, _, _, _, _, _, _) =>
         && q.Summary? && |p.quantiles| == |q.quantiles|
         && forall i :: 0 <= i < |p.quantiles| ==> p.quantiles[i].quantile == q.quantiles[i].quantile
  }

  /** Everything but the time agrees. */
  ghost predicate SameButTime(p: DataPoint, q: DataPoint) {
    && SameValues(p, q)
    && p.attributes == q.attributes && p.startTime == q.startTime
    && (p.Number? ==> p.exemplars == q.exemplars)
    && (p.Histogram? ==> p.exemplars == q.exemplars)
  }

  lemma EquivalentExactly(p: DataPoint, q: DataPoint)
    ensures p.IsEquivalent(q) <==> SameValues(p, q)
  {}

  lemma ZeroExactly(p: DataPoint)
    ensures p.IsZero() <==> AllZero(p)
  {}

  lemma ZeroedExactly(p: DataPoint, t: Nanos)
    ensures var z := p.ToZero(t);
            z.time == t && AllZero(z) && SameShape(z, p)
  {
    ZeroExactly(p.ToZero(t));
  }

  lemma RetimedExactly(p: DataPoint, t: Nanos)
    ensures p.WithTime(t).time == t && SameButTime(p.WithTime(t), p)
  {}

  // ---------------------------------------------------------------------------
  // A run of one deduplicated series.

  /** The value that the i-th point of the input brought is the one in force until the next point. */
  lemma NewValueShows(ops: seq<SeriesOp>, i: nat, t: Nanos)
    requires InTimeOrder(Accumulated(ops)) && i < |Accumulated(ops)|
    requires Accumulated(ops)[i].time <= t && (i + 1 < |Accumulated(ops)| ==> t < Accumulated(ops)[i + 1].time)
    ensures var shown := LatestAt(NEW_EXPORTER.Run(ops).Total(), t);
            shown.Some? && SameValues(shown.value, Accumulated(ops)[i])
  {
    var input := Accumulated(ops);
    DenotationPreserved(ops, t);
    assert input[0].time <= input[i].time;
    LatestIs(input, i, t);
    EquivalentExactly(LatestAt(NEW_EXPORTER.Run(ops).Total(), t).value, input[i]);
  }

  lemma LatestIs(ps: seq<DataPoint>, i: nat, t: Nanos)
    requires InTimeOrder(ps) && i < |ps|
    requires ps[i].time <= t && (i + 1 < |ps| ==> t < ps[i + 1].time)
    ensures LatestAt(ps, t) == Some(ps[i])
  {
    assert ps == ps[..i + 1] + ps[i + 1..];
    LatestAtAppend(ps[..i + 1], ps[i + 1..], t);
    AfterNothing(ps[i + 1..], t);
  }

  /** The i-th point brings a value that the point before it did not have. */
  ghost predicate IsNews(ps: seq<DataPoint>, i: nat)
    requires i < |ps|
  {
    i == 0 || !SameValues(ps[i - 1], ps[i])
  }

  ghost predicate InRange(at: seq<nat>, n: nat) {
    forall j :: 0 <= j < |at| ==> at[j] < n
  }

  /** Exactly the points at these positions bring something new. */
  ghost predicate NewsAt(ps: seq<DataPoint>, at: seq<nat>) {
    && InRange(at, |ps|)
    && (forall j, k :: 0 <= j < k < |at| ==> at[j] < at[k])
    && forall i: nat :: i < |ps| ==> (i in at <==> IsNews(ps, i))
  }

  lemma NewsNext(ps: seq<DataPoint>, p: DataPoint, at: seq<nat>) returns (at': seq<nat>)
    requires NewsAt(ps, at)
    ensures NewsAt(ps + [p], at')
    ensures at' == if ps == [] || !SameValues(Last(ps), p) then at + [|ps|] else at
  {
    at' := if ps == [] || !SameValues(Last(ps), p) then at + [|ps|] else at;
    forall i: nat | i < |ps + [p]| ensures i in at' <==> IsNews(ps + [p], i) {
      if i < |ps| {
        assert i in at <==> IsNews(ps, i);
      } else {
        assert i !in at;
      }
    }
  }

  lemma {:induction false} RetainedNext(prev: Option<DataPoint>, ps: seq<DataPoint>, p: DataPoint)
    ensures var last := TimeSeries(prev, ps).LastPoint();
            Retained(prev, ps + [p])
            == Retained(prev, ps) + if last.Some? && last.value.IsEquivalent(p) then [] else [p]
    decreases ps
  {
    if ps == [] {
      assert [p][1..] == [] && ps + [p] == [p];
      assert Retained(Some(p), []) == [];
    } else {
      assert (ps + [p])[0] == ps[0] && (ps + [p])[1..] == ps[1..] + [p];
      RetainedNext(Some(ps[0]), ps[1..], p);
    }
  }

  /** Deduplication keeps exactly the points that bring something new, in order. */
  lemma {:induction false} RetainedAt(ps: seq<DataPoint>) returns (at: seq<nat>)
    ensures NewsAt(ps, at)
    ensures Retained(None, ps) == seq(|at|, j requires 0 <= j < |at| => ps[at[j]])
  {
    if ps == [] {
      at := [];
    } else {
      var front, p := ps[..|ps| - 1], Last(ps);
      assert ps == front + [p];
      var before := RetainedAt(front);
      at := NewsNext(front, p, before);
      RetainedNext(None, front, p);
      if front != [] {
        EquivalentExactly(Last(front), p);
      }
    }
  }

  /** However times and exports are ordered, a point with a new value comes out as it is. */
  lemma ChangeIsExported(ops: seq<SeriesOp>, i: nat)
    requires i < |Accumulated(ops)| && (i == 0 || !SameValues(Accumulated(ops)[i - 1], Accumulated(ops)[i]))
    ensures Accumulated(ops)[i] in NEW_EXPORTER.Run(ops).Total()
  {
    var input := Accumulated(ops);
    ExportScheduleIndependence(ops);
    var at := RetainedAt(input);
    assert IsNews(input, i);
    var j :| 0 <= j < |at| && at[j] == i;
    assert Retained(None, input)[j] == input[i];
    var r := PositionOf(Retained(None, input), j);
  }

  /** The output opens with the first point of the input, after a cleared copy of it unless it is zero itself. */
  lemma FirstIsExported(ops: seq<SeriesOp>)
    requires Accumulated(ops) != []
    ensures var out, p := NEW_EXPORTER.Run(ops).Total(), Accumulated(ops)[0];
            if AllZero(p) then out != [] && out[0] == p
            else
              && |out| >= 2 && out[1] == p
              && AllZero(out[0]) && SameShape(out[0], p)
              && out[0].time == if p.time < 30_000_000_000 then 0 else p.time - 30_000_000_000
  {
    var p := Accumulated(ops)[0];
    ExportScheduleIndependence(ops);
    ZeroExactly(p);
    ZeroedExactly(p, SaturatingSub(p.time, REPORT_LAST_TIME_NANOS));
    var r := Retained(None, Accumulated(ops));
    assert r[0] == p;
    assert Inflate(None, r) == Emission(None, p) + Inflate(Some(p), r[1..]);
  }

  /** Between two values that follow each other in the output there is at most one more point: a copy of the
      first, exactly 30 s before the second, and only if they are more than 35 s apart. */
  lemma GapIsBridged(ops: seq<SeriesOp>, j: nat)
    requires InTimeOrder(Accumulated(ops)) && j + 1 < |Retained(None, Accumulated(ops))|
    ensures var ps, out := Retained(None, Accumulated(ops)), NEW_EXPORTER.Run(ops).Total();
            var r := PositionOf(ps, j);
            && r < |out| && out[r] == ps[j]
            && if ps[j + 1].time - ps[j].time <= 35_000_000_000 then r + 1 < |out| && out[r + 1] == ps[j + 1]
               else
                 && r + 2 < |out| && out[r + 2] == ps[j + 1]
                 && SameButTime(out[r + 1], ps[j])
                 && out[r + 1].time == ps[j + 1].time - 30_000_000_000
  {
    ExportScheduleIndependence(ops);
    RetainedOrder(None, Accumulated(ops));
    var ps := Retained(None, Accumulated(ops));
    NextPosition(ps, j);
    if ps[j + 1].time - ps[j].time > 35_000_000_000 {
      var t := Inflate(None, ps)[PositionOf(ps, j) + 1].time;
      RetimedExactly(ps[j], t);
    }
  }
}
