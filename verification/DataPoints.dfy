/** Metric data points, their equivalence, and the identity of the time series they belong to
    (src/telemetry/otel_metrics.rs). */
module DataPoints {
  import opened Sequences

  const MAX_TIME_BETWEEN_DATA_NANOS: nat := 35_000_000_000
  const REPORT_LAST_TIME_NANOS: nat := 30_000_000_000

  /** A `u64` timestamp to which MAX_TIME_BETWEEN_DATA_NANOS can be added without overflow. */
  type Nanos = t: nat | t + MAX_TIME_BETWEEN_DATA_NANOS < 0x1_0000_0000_0000_0000

  /** `u64::saturating_sub`. */
  function SaturatingSub(t: Nanos, d: nat): (r: Nanos)
    ensures r <= t
    ensures d <= t ==> r + d == t
    ensures t < d ==> r == 0
  {
    if t < d then 0 else t - d
  }

  /** A key with its value already rendered to a string. */
  datatype Attribute = Attribute(key: string, value: Option<string>)

  datatype NumberValue = AsInt(i: int) | AsDouble(d: real)

  datatype Quantile = Quantile(quantile: real, value: real)

  /** The parts of a point that `is_equivalent` compares. */
  datatype Measurement =
    | NumberOf(flags: nat, number: Option<NumberValue>)
    | HistogramOf(flags: nat, count: nat, histogramSum: Option<real>, min: Option<real>, max: Option<real>,
                  bucketCounts: seq<nat>, explicitBounds: seq<real>)
    | SummaryOf(flags: nat, count: nat, summarySum: real, quantiles: seq<Quantile>)

  datatype DataPoint =
    | Number(attributes: seq<Attribute>, startTime: nat, time: Nanos, flags: nat,
             number: Option<NumberValue>, exemplars: seq<nat>)
    | Histogram(attributes: seq<Attribute>, startTime: nat, time: Nanos, flags: nat,
                count: nat, histogramSum: Option<real>, min: Option<real>, max: Option<real>,
                bucketCounts: seq<nat>, explicitBounds: seq<real>, exemplars: seq<nat>)
    | Summary(attributes: seq<Attribute>, startTime: nat, time: Nanos, flags: nat,
              count: nat, summarySum: real, quantiles: seq<Quantile>)
  {
    /** `clone_with_timestamp` */
    function WithTime(t: Nanos): DataPoint {
      this.(time := t)
    }

    function Measured(): Measurement {
      match this
      case Number(_, _, _, f, v, _) => NumberOf(f, v)
      case Histogram(_, _, _, f, c, s, lo, hi, b, e, _) => HistogramOf(f, c, s, lo, hi, b, e)
      case Summary(_, _, _, f, c, s, q) => SummaryOf(f, c, s, q)
    }

    /** `is_equivalent` */
    predicate IsEquivalent(other: DataPoint) {
      Measured() == other.Measured()
    }

    predicate IsZero() {
      match this
      case Number(_, _, _, _, v, _) =>
        v == None || v == Some(AsInt(0)) || v == Some(AsDouble(0.0))
      case Histogram(_, _, _, _, c, s, lo, hi, b, _, _) =>
        && (s == None || s == Some(0.0))
        && c == 0
        && (lo == None || lo == Some(0.0))
        && (hi == None || hi == Some(0.0))
        && forall i :: 0 <= i < |b| ==> b[i] == 0
      case Summary(_, _, _, _, c, s, q) =>
        s == 0.0 && c == 0 && forall i :: 0 <= i < |q| ==> q[i].value == 0.0
    }

    /** `to_zero`: the same point with every measured quantity cleared. */
    function ToZero(t: Nanos): (z: DataPoint)
      ensures z.IsZero() && z.time == t
      ensures z.attributes == attributes && z.startTime == startTime && z.flags == flags
      ensures z.WithTime(time) == this <== IsZero()
    {
      match this
      case Number(_, _, _, _, v, _) =>
        var zero := match v
          case None => None
          case Some(AsInt(_)) => Some(AsInt(0))
          case Some(AsDouble(_)) => Some(AsDouble(0.0));
        this.(number := zero, time := t)
      case Histogram(_, _, _, _, _, s, lo, hi, b, _, _) =>
        this.(histogramSum := if s.Some? then Some(0.0) else None, count := 0,
              min := if lo.Some? then Some(0.0) else None,
              max := if hi.Some? then Some(0.0) else None,
              bucketCounts := seq(|b|, _ => 0), time := t)
      case Summary(_, _, _, _, _, _, q) =>
        this.(summarySum := 0.0, count := 0,
              quantiles := seq(|q|, i requires 0 <= i < |q| => Quantile(q[i].quantile, 0.0)), time := t)
    }

    /** `time_series_id` */
    function SeriesId(): seq<Attribute> {
      SortedAttributes(attributes)
    }
  }

  // ---------------------------------------------------------------------------
  // The order on attributes: by key, then by value with an absent value first.

  predicate StringLe(a: string, b: string) {
    a == [] || (b != [] && (a[0] < b[0] || (a[0] == b[0] && StringLe(a[1..], b[1..]))))
  }

  predicate AttributeLe(a: Attribute, b: Attribute) {
    if a.key != b.key then StringLe(a.key, b.key)
    else a.value.None? || (b.value.Some? && StringLe(a.value.value, b.value.value))
  }

  lemma {:induction false} StringLeOrder(a: string, b: string, c: string)
    ensures StringLe(a, b) || StringLe(b, a)
    ensures StringLe(a, b) && StringLe(b, a) ==> a == b
    ensures StringLe(a, b) && StringLe(b, c) ==> StringLe(a, c)
  {
    if a != [] && b != [] && a[0] == b[0] {
      StringLeOrder(a[1..], b[1..], if c != [] then c[1..] else []);
      assert a == [a[0]] + a[1..] && b == [b[0]] + b[1..];
    }
  }

  lemma AttributeLeOrder(a: Attribute, b: Attribute, c: Attribute)
    ensures AttributeLe(a, b) || AttributeLe(b, a)
    ensures AttributeLe(a, b) && AttributeLe(b, a) ==> a == b
    ensures AttributeLe(a, b) && AttributeLe(b, c) ==> AttributeLe(a, c)
  {
    StringLeOrder(a.key, b.key, c.key);
    StringLeOrder(b.key, c.key, a.key);
    if a.value.Some? && b.value.Some? {
      StringLeOrder(a.value.value, b.value.value, if c.value.Some? then c.value.value else "");
    }
  }

  // ---------------------------------------------------------------------------
  // `TimeSeriesId::from`: the attributes in sorted order.

  function Insert(a: Attribute, s: seq<Attribute>): seq<Attribute> {
    if s == [] || AttributeLe(a, s[0]) then [a] + s else [s[0]] + Insert(a, s[1..])
  }

  function SortedAttributes(s: seq<Attribute>): seq<Attribute> {
    if s == [] then [] else Insert(s[0], SortedAttributes(s[1..]))
  }

  ghost predicate Ascending(s: seq<Attribute>) {
    forall i, j :: 0 <= i < j < |s| ==> AttributeLe(s[i], s[j])
  }

  lemma {:induction false} InsertAscending(a: Attribute, s: seq<Attribute>)
    requires Ascending(s)
    ensures multiset(Insert(a, s)) == multiset{a} + multiset(s)
    ensures Ascending(Insert(a, s))
  {
    if s == [] {
    } else if AttributeLe(a, s[0]) {
      forall j | 0 <= j < |s| ensures AttributeLe(a, s[j]) {
        AttributeLeOrder(a, s[0], s[j]);
      }
    } else {
      InsertAscending(a, s[1..]);
      AttributeLeOrder(a, s[0], a);
      assert s == [s[0]] + s[1..];
      var r := Insert(a, s[1..]);
      forall j | 0 <= j < |r| ensures AttributeLe(s[0], r[j]) {
        assert r[j] in multiset(r);
        assert r[j] == a || r[j] in s[1..];
      }
    }
  }

  lemma {:induction false} SortedAscending(s: seq<Attribute>)
    ensures multiset(SortedAttributes(s)) == multiset(s)
    ensures Ascending(SortedAttributes(s))
  {
    if s != [] {
      SortedAscending(s[1..]);
      InsertAscending(s[0], SortedAttributes(s[1..]));
      assert s == [s[0]] + s[1..];
    }
  }

  lemma FirstIsLeast(s: seq<Attribute>, a: Attribute)
    requires Ascending(s) && a in s
    ensures AttributeLe(s[0], a)
  {
    AttributeLeOrder(a, a, a);
  }

  /** A sorted arrangement of a bag of attributes is unique. */
  lemma {:induction false} AscendingUnique(s: seq<Attribute>, t: seq<Attribute>)
    requires Ascending(s) && Ascending(t) && multiset(s) == multiset(t)
    ensures s == t
  {
    assert |multiset(s)| == |s| && |multiset(t)| == |t|;
    if s != [] {
      assert s[0] == t[0] by {
        assert s[0] in multiset(s) && t[0] in multiset(t);
        FirstIsLeast(s, t[0]);
        FirstIsLeast(t, s[0]);
        AttributeLeOrder(s[0], t[0], s[0]);
      }
      assert multiset(s[1..]) == multiset(t[1..]) by {
        assert s == [s[0]] + s[1..] && t == [t[0]] + t[1..];
        assert multiset(s[1..]) == multiset(s) - multiset{s[0]};
        assert multiset(t[1..]) == multiset(t) - multiset{s[0]};
      }
      AscendingUnique(s[1..], t[1..]);
      assert s == [s[0]] + s[1..] && t == [t[0]] + t[1..];
    }
  }

  /** Two points belong to the same series exactly when their attribute lists are permutations
      of each other. */
  lemma SeriesIdIsCanonical(p: DataPoint, q: DataPoint)
    ensures p.SeriesId() == q.SeriesId() <==> multiset(p.attributes) == multiset(q.attributes)
  {
    SortedAscending(p.attributes);
    SortedAscending(q.attributes);
    if multiset(p.attributes) == multiset(q.attributes) {
      AscendingUnique(p.SeriesId(), q.SeriesId());
    }
  }
}
