/** Synthesis of the sub-millisecond part of log timestamps (src/telemetry/processor/log_processor.rs). */
module LogTimestamps {
  const U32: nat := 0x1_0000_0000
  const U64: nat := 0x1_0000_0000_0000_0000
  const MAX_SUBINDEX: nat := 999_999

  /** The time of the last log, in nanoseconds since the epoch, and its index among those of that time. */
  datatype LogClock = LogClock(timestamp: int, subindex: nat)

  const EPOCH := LogClock(0, 0)

  /** The time as an unsigned 64-bit number of nanoseconds, clamped at both ends. */
  function ClampedNanos(t: int): nat {
    if t < 0 then 0 else if t >= U64 then U64 - 1 else t
  }

  function Min(a: nat, b: nat): nat {
    if a < b then a else b
  }

  function NextClock(c: LogClock, t: int): LogClock {
    if t == c.timestamp then LogClock(t, (c.subindex + 1) % U32) else LogClock(t, 0)
  }

  /** `make_log_timestamp`: additions wrap around. */
  function MakeLogTimestamp(c: LogClock, t: int): nat {
    (ClampedNanos(t) + Min(NextClock(c, t).subindex, MAX_SUBINDEX)) % U64
  }

  class LastLogState {
    var lastLogTimestamp: int
    var lastLogSubindex: nat

    constructor ()
      ensures View() == EPOCH
    {
      lastLogTimestamp, lastLogSubindex := 0, 0;
    }

    function View(): LogClock
      reads this
    {
      LogClock(lastLogTimestamp, lastLogSubindex)
    }

    method MakeTimestamp(timestamp: int) returns (nanos: nat)
      modifies this
      ensures View() == NextClock(old(View()), timestamp)
      ensures nanos == MakeLogTimestamp(old(View()), timestamp)
    {
      nanos := ClampedNanos(timestamp);
      var subindex;
      if timestamp == lastLogTimestamp {
        lastLogSubindex := (lastLogSubindex + 1) % U32;
        subindex := Min(lastLogSubindex, MAX_SUBINDEX);
      } else {
        lastLogTimestamp := timestamp;
        lastLogSubindex := 0;
        subindex := lastLogSubindex;
      }
      nanos := (nanos + subindex) % U64;
    }
  }

  // ---------------------------------------------------------------------------
  // The timestamps of a whole sequence of logs.

  function ClockAfter(times: seq<int>): LogClock {
    if times == [] then EPOCH else NextClock(ClockAfter(times[..|times| - 1]), times[|times| - 1])
  }

  function Timestamps(times: seq<int>): (r: seq<nat>)
    ensures |r| == |times|
  {
    if times == [] then []
    else
      var front := times[..|times| - 1];
      Timestamps(front) + [MakeLogTimestamp(ClockAfter(front), times[|times| - 1])]
  }

  /** The number of logs right before the i-th one with the same time. */
  function Repeats(times: seq<int>, i: nat): nat
    requires i < |times|
  {
    if i > 0 && times[i - 1] == times[i] then Repeats(times, i - 1) + 1 else 0
  }

  /** Times that a real log can have: after the epoch, whole milliseconds, well below 2^64 ns. */
  ghost predicate Realistic(times: seq<int>) {
    forall i :: 0 <= i < |times| ==> 0 < times[i] && times[i] + MAX_SUBINDEX < U64 && times[i] % 1_000_000 == 0
  }

  ghost predicate InOrder(times: seq<int>) {
    forall i, j :: 0 <= i < j < |times| ==> times[i] <= times[j]
  }

  lemma RepeatsOfPrefix(times: seq<int>, n: nat, i: nat)
    requires i < n <= |times|
    ensures Repeats(times[..n], i) == Repeats(times, i)
  {
    if i > 0 {
      RepeatsOfPrefix(times, n, i - 1);
    }
  }

  lemma {:induction false} ClockCounts(times: seq<int>)
    requires times != [] && forall i :: 0 <= i < |times| ==> times[i] != 0
    ensures ClockAfter(times) == LogClock(times[|times| - 1], Repeats(times, |times| - 1) % U32)
  {
    var n := |times| - 1;
    var front := times[..n];
    if n > 0 {
      ClockCounts(front);
      RepeatsOfPrefix(times, n, n - 1);
      if times[n - 1] == times[n] {
        WrapNext(Repeats(times, n - 1));
      }
    }
  }

  lemma WrapNext(k: nat)
    ensures (k % U32 + 1) % U32 == (k + 1) % U32
  {}

  lemma {:induction false} TimestampsOfPrefix(times: seq<int>, n: nat)
    requires n <= |times|
    ensures Timestamps(times)[..n] == Timestamps(times[..n])
  {
    if n < |times| {
      TimestampsOfPrefix(times[..|times| - 1], n);
      assert times[..|times| - 1][..n] == times[..n];
    } else {
      assert times[..n] == times;
    }
  }

  lemma SameMillisecond(t: int, k: nat)
    requires t % 1_000_000 == 0 && k <= MAX_SUBINDEX
    ensures (t + k) / 1_000_000 == t / 1_000_000
  {}

  lemma StampAt(times: seq<int>, i: nat)
    requires i < |times|
    ensures Timestamps(times)[i] == MakeLogTimestamp(ClockAfter(times[..i]), times[i])
    ensures ClockAfter(times[..i + 1]) == NextClock(ClockAfter(times[..i]), times[i])
  {
    var upto := times[..i + 1];
    assert upto[..i] == times[..i];
    TimestampsOfPrefix(times, i + 1);
    assert Timestamps(times)[i] == Timestamps(times)[..i + 1][i] == Timestamps(upto)[i];
  }

  lemma IndexAt(times: seq<int>, i: nat)
    requires i < |times| && Realistic(times)
    ensures ClockAfter(times[..i + 1]).subindex == Repeats(times, i) % U32
  {
    ClockCounts(times[..i + 1]);
    RepeatsOfPrefix(times, i + 1, i);
  }

  /** Real times leave room for the index. */
  lemma NoWrap(t: int, k: nat)
    requires 0 < t && t + MAX_SUBINDEX < U64 && k <= MAX_SUBINDEX
    ensures (ClampedNanos(t) + k) % U64 == t + k
  {}

  /** Whatever the times, short of the epoch itself: the time in the range of an unsigned 64-bit number, plus the index
      among the logs right before with the same time, up to 999,999 and modulo 2^32; the sum wraps around. */
  lemma TimestampOfAny(times: seq<int>, i: nat)
    requires i < |times| && forall j :: 0 <= j < |times| ==> times[j] != 0
    ensures var t, k := times[i], Repeats(times, i) % 0x1_0000_0000;
            var nanos := if t < 0 then 0 else if t > 0xffff_ffff_ffff_ffff then 0xffff_ffff_ffff_ffff else t;
            Timestamps(times)[i] == (nanos + if k < 999_999 then k else 999_999) % 0x1_0000_0000_0000_0000
  {
    StampAt(times, i);
    ClockCounts(times[..i + 1]);
    RepeatsOfPrefix(times, i + 1, i);
  }

  /** A log's timestamp is its time plus its index among the logs right before it with the same time, up to
      999,999 and modulo 2^32: it stays within its own millisecond. */
  lemma TimestampOf(times: seq<int>, i: nat)
    requires i < |times| && Realistic(times)
    ensures Timestamps(times)[i] == times[i] + Min(Repeats(times, i) % 0x1_0000_0000, 999_999)
    ensures Timestamps(times)[i] / 1_000_000 == times[i] / 1_000_000
  {
    var subindex := Min(Repeats(times, i) % U32, MAX_SUBINDEX);
    StampAt(times, i);
    IndexAt(times, i);
    NoWrap(times[i], subindex);
    SameMillisecond(times[i], subindex);
  }

  /** When a log repeats a time 2^32 times or more, an earlier one of that run repeats it exactly 2^32 times. */
  lemma {:induction false} WrapReached(times: seq<int>, i: nat) returns (j: nat)
    requires i < |times| && Repeats(times, i) >= U32
    ensures 0 < j <= i && Repeats(times, j) == U32 && times[j - 1] == times[j]
    ensures Repeats(times, j - 1) == U32 - 1
  {
    if Repeats(times, i) == U32 {
      j := i;
    } else {
      j := WrapReached(times, i - 1);
    }
  }

  lemma {:induction false} OrderOfNeighbours(r: seq<nat>)
    requires forall i :: 0 < i < |r| ==> r[i - 1] <= r[i]
    ensures forall i, j :: 0 <= i < j < |r| ==> r[i] <= r[j]
  {
    if |r| > 1 {
      var n := |r| - 1;
      OrderOfNeighbours(r[..n]);
      forall i | 0 <= i < n ensures r[i] <= r[n] {
        assert r[..n][i] <= r[..n][n - 1] <= r[n];
      }
      assert forall i, j :: 0 <= i < j < n ==> r[..n][i] <= r[..n][j];
    }
  }

  lemma NextMillisecond(a: int, b: int)
    requires a % 1_000_000 == 0 && b % 1_000_000 == 0 && a < b
    ensures a + 1_000_000 <= b
  {}

  lemma NextSubindex(k: nat)
    ensures k + 1 < U32 ==> Min(k % U32, MAX_SUBINDEX) <= Min((k + 1) % U32, MAX_SUBINDEX)
    ensures k + 1 <= MAX_SUBINDEX ==> Min(k % U32, MAX_SUBINDEX) < Min((k + 1) % U32, MAX_SUBINDEX)
    ensures k + 1 == U32 ==> Min(k % U32, MAX_SUBINDEX) > Min((k + 1) % U32, MAX_SUBINDEX)
  {}

  /** One log after another. */
  lemma NextTimestamp(times: seq<int>, i: nat)
    requires 0 < i < |times| && Realistic(times) && InOrder(times)
    ensures Repeats(times, i) < U32 ==> Timestamps(times)[i - 1] <= Timestamps(times)[i]
    ensures times[i - 1] == times[i] && Repeats(times, i) <= MAX_SUBINDEX ==>
              Timestamps(times)[i - 1] < Timestamps(times)[i]
    ensures times[i - 1] == times[i] && Repeats(times, i) == U32 ==> Timestamps(times)[i - 1] > Timestamps(times)[i]
  {
    TimestampOf(times, i - 1);
    TimestampOf(times, i);
    if times[i - 1] != times[i] {
      NextMillisecond(times[i - 1], times[i]);
    } else {
      NextSubindex(Repeats(times, i - 1));
    }
  }

  /** Logs that arrive in time order get timestamps in order exactly when no millisecond has more than 2^32
      of them, and the first million logs of a millisecond get strictly increasing ones. */
  lemma TimestampsInOrder(times: seq<int>)
    requires Realistic(times) && InOrder(times)
    ensures (forall i, j :: 0 <= i < j < |times| ==> Timestamps(times)[i] <= Timestamps(times)[j])
       <==> forall i :: 0 <= i < |times| ==> Repeats(times, i) < 0x1_0000_0000
    ensures forall i :: 0 < i < |times| && times[i - 1] == times[i] && Repeats(times, i) <= 999_999
              ==> Timestamps(times)[i - 1] < Timestamps(times)[i]
  {
    var r := Timestamps(times);
    forall i | 0 < i < |times| && times[i - 1] == times[i] && Repeats(times, i) <= MAX_SUBINDEX
      ensures r[i - 1] < r[i]
    {
      NextTimestamp(times, i);
    }
    if i :| 0 <= i < |times| && Repeats(times, i) >= U32 {
      var j := WrapReached(times, i);
      NextTimestamp(times, j);
      assert r[j - 1] > r[j];
    } else {
      forall i | 0 < i < |r| ensures r[i - 1] <= r[i] {
        NextTimestamp(times, i);
      }
      OrderOfNeighbours(r);
    }
  }

  lemma {:induction false} ConstantRepeats(times: seq<int>, i: nat)
    requires i < |times| && forall j :: 0 <= j < |times| ==> times[j] == times[0]
    ensures Repeats(times, i) == i
  {
    if i > 0 {
      ConstantRepeats(times, i - 1);
    }
  }

  /** A time that occurs 2^32 + 1 times gets its timestamps out of order. */
  lemma TimestampsOutOfOrder(t: int)
    requires 0 < t && t + MAX_SUBINDEX < U64 && t % 1_000_000 == 0
    ensures var times := seq(U32 + 1, _ => t);
            && Realistic(times) && InOrder(times)
            && Timestamps(times)[U32 - 1] > Timestamps(times)[U32]
  {
    var times := seq(U32 + 1, _ => t);
    ConstantRepeats(times, U32);
    NextTimestamp(times, U32);
  }
}
