/** Which of the events that arrived at the service go to an invocation, and how it ends
    (src/telemetry/telemetry_service.rs). */
module InvocationEvents {
  import opened Sequences
  import opened Telemetry
  import opened InvocationProcessing
  import opened Correlation
  import opened EventMerge
  import opened Attribution
  import Runs = InvocationRuns
  import P = InvocationProcessing

  /** The events among the steps of an invocation. */
  function EventsAmong(steps: seq<P.Step>): seq<Event> {
    if steps == [] then []
    else EventsAmong(steps[..|steps| - 1]) + if Last(steps).OnEvent? then [Last(steps).event] else []
  }

  /** The events that went to invocation j. */
  function EventsOn(t: seq<TreatedEvent>, j: nat): seq<Event> {
    if t == [] then []
    else EventsOn(t[..|t| - 1], j) + if Last(t).how == OnInvocation(j) then [Last(t).event] else []
  }

  lemma {:induction false} StepsAreEvents(trace: seq<Action>, j: nat, ids: nat -> Bytes)
    ensures EventsAmong(Runs.StepsOn(trace, j, ids)) == EventsOn(EventTrace(trace), j)
  {
    if trace != [] {
      var front, a := trace[..|trace| - 1], Last(trace);
      var steps := Runs.StepsOn(front, j, ids);
      StepsAreEvents(front, j, ids);
      assert steps + [] == steps && EventTrace(front) + [] == EventTrace(front);
      if a.Handled? {
        var treated := TreatedEvent(a.event, a.how);
        assert (EventTrace(front) + [treated])[..|EventTrace(front)|] == EventTrace(front);
        if a.how == OnInvocation(j) {
          var step := OnEvent(a.event, ids(|front|));
          assert (steps + [step])[..|steps|] == steps;
        }
      } else if a.ordinal == j {
        assert (steps + [OnSpans(a.spans)])[..|steps|] == steps;
      }
    }
  }

  // ---------------------------------------------------------------------------
  // What the events say about the steps.

  predicate IsDoneEvent(e: Event) {
    e.record.PlatformRuntimeDone?
  }

  predicate IsReportEvent(e: Event) {
    e.record.PlatformReport?
  }

  ghost predicate NoneOf(es: seq<Event>, p: Event -> bool) {
    forall i :: 0 <= i < |es| ==> !p(es[i])
  }

  lemma NoneOfNext(es: seq<Event>, e: Event, p: Event -> bool)
    ensures NoneOf(es + [e], p) <==> NoneOf(es, p) && !p(e)
  {
    var all := es + [e];
    assert all[|es|] == e;
    if NoneOf(all, p) {
      forall i | 0 <= i < |es| ensures !p(es[i]) {
        assert all[i] == es[i];
      }
    }
  }

  lemma {:induction false} NeverAmong(steps: seq<P.Step>)
    ensures Never(steps, IsDone) <==> NoneOf(EventsAmong(steps), IsDoneEvent)
    ensures Never(steps, IsReport) <==> NoneOf(EventsAmong(steps), IsReportEvent)
  {
    if steps != [] {
      var front, step := steps[..|steps| - 1], Last(steps);
      NeverAmong(front);
      NeverInFront(steps, IsDone);
      NeverInFront(steps, IsReport);
      if step.OnEvent? {
        NoneOfNext(EventsAmong(front), step.event, IsDoneEvent);
        NoneOfNext(EventsAmong(front), step.event, IsReportEvent);
      } else {
        assert EventsAmong(steps) == EventsAmong(front);
      }
    }
  }

  // ---------------------------------------------------------------------------
  // The events of an invocation are a segment of what arrived.

  /** t is what happened to the first |t| events, normal processing being replayed from k when p arrives. */
  ghost predicate Treated(t: seq<TreatedEvent>, events: seq<Event>, context: FunctionContext, k: nat, p: nat) {
    && p < |t| <= |events| && EventsIn(t) == events[..|t|] && LastInit(events, p, k)
    && forall i :: 0 <= i < |t| ==> t[i].how == TreatmentOf(events, context, k, p, i)
  }

  /** Event i goes to invocation j. */
  ghost predicate GoesOn(events: seq<Event>, k: nat, p: nat, j: nat, i: nat)
    requires p <= |events| && i <= |events|
  {
    i >= k && Ordinal(events, k, p, i) == j
  }

  /** Of the first m events, those from lo up to hi are the ones that go to invocation j. */
  ghost predicate GoesTo(events: seq<Event>, k: nat, p: nat, j: nat, m: nat, lo: nat, hi: nat)
    requires p <= |events| && m <= |events|
  {
    && lo <= hi <= m
    && forall i: nat :: i < m ==> (GoesOn(events, k, p, j, i) <==> lo <= i < hi)
  }

  lemma {:induction false} Segment(t: seq<TreatedEvent>, events: seq<Event>, context: FunctionContext,
                                   k: nat, p: nat, j: nat, m: nat)
    returns (lo: nat, hi: nat)
    requires Treated(t, events, context, k, p) && m <= |t|
    ensures GoesTo(events, k, p, j, m, lo, hi) && EventsOn(t[..m], j) == events[lo..hi]
  {
    if m == 0 {
      lo, hi := 0, 0;
    } else {
      var lo', hi' := Segment(t, events, context, k, p, j, m - 1);
      EventsOnNext(t, events, context, k, p, j, m - 1);
      lo, hi := SegmentNext(events, k, p, j, m - 1, lo', hi');
    }
  }

  lemma EventsOnNext(t: seq<TreatedEvent>, events: seq<Event>, context: FunctionContext, k: nat, p: nat, j: nat, m: nat)
    requires Treated(t, events, context, k, p) && m < |t|
    ensures EventsOn(t[..m + 1], j)
         == EventsOn(t[..m], j) + if GoesOn(events, k, p, j, m) then [events[m]] else []
  {
    assert t[..m + 1][..m] == t[..m];
    assert t[m].event == EventsIn(t)[m] == events[m];
  }

  lemma SegmentNext(events: seq<Event>, k: nat, p: nat, j: nat, m: nat, lo: nat, hi: nat) returns (lo': nat, hi': nat)
    requires p <= |events| && m < |events| && GoesTo(events, k, p, j, m, lo, hi)
    ensures GoesTo(events, k, p, j, m + 1, lo', hi')
    ensures events[lo'..hi'] == events[lo..hi] + if GoesOn(events, k, p, j, m) then [events[m]] else []
  {
    lo', hi' := lo, hi;
    if GoesOn(events, k, p, j, m) {
      if lo < hi {
        NoGap(events, k, p, j, m, lo, hi);
      } else {
        lo' := m;
      }
      hi' := m + 1;
      assert events[lo'..hi'] == events[lo'..m] + [events[m]];
    } else {
      assert events[lo..hi] + [] == events[lo..hi];
    }
  }

  lemma NoGap(events: seq<Event>, k: nat, p: nat, j: nat, m: nat, lo: nat, hi: nat)
    requires p <= |events| && k <= m < |events| && GoesTo(events, k, p, j, m, lo, hi) && lo < hi
    requires Ordinal(events, k, p, m) == j
    ensures hi == m
  {
    assert GoesOn(events, k, p, j, lo) && (hi < m ==> !GoesOn(events, k, p, j, hi));
    OrdinalMonotone(events, k, p, lo, hi);
    OrdinalMonotone(events, k, p, hi, m);
  }

  /** When later events go to later invocations, the last event of an invocation closes it. */
  lemma {:induction false} CrossAt(events: seq<Event>, k: nat, p: nat, j: nat, n: nat) returns (i: nat)
    requires p <= n <= |events| && Ordinal(events, k, p, n) > j
    ensures p <= i < n && Ordinal(events, k, p, i) == j && Ordinal(events, k, p, i + 1) == j + 1
    ensures Closes(events, k, p, i)
    decreases n
  {
    if Ordinal(events, k, p, n - 1) > j {
      i := CrossAt(events, k, p, j, n - 1);
    } else {
      i := n - 1;
    }
  }

  // ---------------------------------------------------------------------------
  // The state of a run after the replay.

  ghost predicate AfterReplay(s: State, events: seq<Event>, context: FunctionContext, k: nat, p: nat) {
    var t := EventTrace(s.trace);
    && Treated(t, events, context, k, p)
    && (s.invocation.Some? ==>
          && s.invocation.value.ordinal + 1 == s.openings && !s.invocation.value.reported
          && Ordinal(events, k, p, |t|) + 1 == s.openings)
    && (s.invocation.None? ==> Ordinal(events, k, p, |t|) == s.openings)
  }

  /** Normal processing starts when p arrives, and is replayed from k. */
  ghost predicate Replayed(inputs: seq<Input>, k: nat, p: nat) {
    && InvokesOf(inputs) != []
    && ReplayAt(EventsOf(inputs), InvokesOf(inputs)[0].requestId, p) && LastInit(EventsOf(inputs), p, k)
  }

  lemma OneReplay(inputs: seq<Input>, k: nat, p: nat, k': nat, p': nat)
    requires Replayed(inputs, k, p) && Replayed(inputs, k', p')
    ensures k' == k && p' == p
  {
    OnlyOneReplay(EventsOf(inputs), InvokesOf(inputs)[0].requestId, p, p', k, k');
  }

  lemma RunAfterReplay(inputs: seq<Input>, k: nat, p: nat)
    requires Replayed(inputs, k, p)
    ensures AfterReplay(EventMerge.Run(inputs), EventsOf(inputs), InvokesOf(inputs)[0].context, k, p)
    ensures EventMerge.Run(inputs).initHandled
  {
    var s := RunInvariant(inputs);
    var invokes, events := InvokesOf(inputs), EventsOf(inputs);
    QuiescentAfterReplay(s, invokes, events, k, p);
    TakenPastReplay(s, invokes, events, k, p);
  }

  lemma TakenPastReplay(s: State, invokes: seq<InvokeEvent>, events: seq<Event>, k: nat, p: nat)
    requires Conserved(s, events) && InvokesConserved(s, invokes) && Quiescent(s)
    requires |EventTrace(s.trace)| <= |events| && AfterInit(s, invokes, events, k, p)
    ensures AfterReplay(s, events, invokes[0].context, k, p)
  {
    var t := EventTrace(s.trace);
    assert EventsIn(t) == (EventsIn(t) + s.halfProcessedEventBuffer + s.telemetryEventQueue)[..|t|];
    assert |s.telemetryEventQueue| == |events| - |t|;
  }

  /** The events of a closed invocation: the segment from k up to p when a report was replayed, and otherwise one that
      ends in a report. */
  lemma ClosedEvents(s: State, events: seq<Event>, context: FunctionContext, k: nat, p: nat, j: nat)
    returns (lo: nat, hi: nat)
    requires AfterReplay(s, events, context, k, p) && j < s.openings && !IsOpen(s, j)
    ensures lo < hi <= |events| && EventsOn(EventTrace(s.trace), j) == events[lo..hi]
    ensures if j == 0 && ReportIn(events, k, p) then lo == k && hi == p + 1 else IsReportEvent(events[hi - 1])
  {
    var t := EventTrace(s.trace);
    var n := |t|;
    var i := CrossAt(events, k, p, j, n);
    lo, hi := Segment(t, events, context, k, p, j, n);
    assert t[..n] == t;
    assert GoesOn(events, k, p, j, i) && (i + 1 < n ==> !GoesOn(events, k, p, j, i + 1));
    assert hi == i + 1;
    if j == 0 && ReportIn(events, k, p) {
      FirstSegment(events, k, p, n, lo, hi);
    }
  }

  lemma FirstSegment(events: seq<Event>, k: nat, p: nat, n: nat, lo: nat, hi: nat)
    requires k < p < n <= |events| && GoesTo(events, k, p, 0, n, lo, hi) && ReportIn(events, k, p)
    ensures lo == k && hi == p + 1
  {
    assert Ordinal(events, k, p, k) == 0 && Ordinal(events, k, p, p) == 0;
    assert Closes(events, k, p, p) && Ordinal(events, k, p, p + 1) == 1;
    assert GoesOn(events, k, p, 0, k) && GoesOn(events, k, p, 0, p);
    assert k > 0 ==> !GoesOn(events, k, p, 0, k - 1);
    assert p + 1 < n ==> !GoesOn(events, k, p, 0, p + 1);
  }

  /** A report among the replayed events closes the first invocation. */
  lemma ClosedAfterReport(s: State, events: seq<Event>, context: FunctionContext, k: nat, p: nat)
    requires AfterReplay(s, events, context, k, p) && ReportIn(events, k, p)
    ensures s.openings > 0 && !IsOpen(s, 0)
  {
    var n := |EventTrace(s.trace)|;
    assert Closes(events, k, p, p) && Ordinal(events, k, p, p + 1) == 1;
    OrdinalMonotone(events, k, p, p + 1, n);
  }

  /** An open invocation has no report among its events. */
  lemma OpenEvents(s: State, events: seq<Event>, context: FunctionContext, k: nat, p: nat, j: nat)
    requires AfterReplay(s, events, context, k, p) && IsOpen(s, j)
    ensures NoneOf(EventsOn(EventTrace(s.trace), j), IsReportEvent)
  {
    var t := EventTrace(s.trace);
    var n := |t|;
    var lo, hi := Segment(t, events, context, k, p, j, n);
    assert t[..n] == t;
    forall i | 0 <= i < hi - lo ensures !IsReportEvent(events[lo..hi][i]) {
      assert GoesOn(events, k, p, j, lo + i);
      OpenEvent(events, k, p, n, lo + i);
    }
  }

  lemma OpenEvent(events: seq<Event>, k: nat, p: nat, n: nat, i: nat)
    requires p < n <= |events| && k <= i < n && Ordinal(events, k, p, i) == Ordinal(events, k, p, n)
    ensures !IsReportEvent(events[i])
  {
    if IsReportEvent(events[i]) {
      var c := if i < p then p else i;
      assert Closes(events, k, p, c);
      OrdinalMonotone(events, k, p, i, c);
      OrdinalMonotone(events, k, p, c + 1, n);
    }
  }

  // ---------------------------------------------------------------------------
  // Whether an invocation is open.

  lemma {:induction false} NothingOn(t: seq<TreatedEvent>, j: nat)
    requires forall i :: 0 <= i < |t| ==> t[i].how.Degraded?
    ensures EventsOn(t, j) == []
  {
    if t != [] {
      NothingOn(t[..|t| - 1], j);
    }
  }

  /** Before the replay no invocation has any events, and none has been closed. */
  lemma BeforeReplay(inputs: seq<Input>, j: nat)
    requires !EventMerge.Run(inputs).initHandled
    ensures EventsOn(EventTrace(EventMerge.Run(inputs).trace), j) == []
    ensures j < EventMerge.Run(inputs).openings ==> IsOpen(EventMerge.Run(inputs), j)
  {
    var s := RunInvariant(inputs);
    assert |EventsIn(EventTrace(s.trace))| == |EventTrace(s.trace)|;
    NothingOn(EventTrace(s.trace), j);
  }

  /** Normal processing has started exactly when the start of the first invocation arrived after an init start. */
  lemma ReplayOf(inputs: seq<Input>) returns (k: nat, p: nat)
    requires EventMerge.Run(inputs).initHandled
    ensures Replayed(inputs, k, p)
  {
    var s := RunInvariant(inputs);
    var k': nat, p': nat :| AfterInit(s, InvokesOf(inputs), EventsOf(inputs), k', p');
    k, p := k', p';
  }

  lemma ReportAmong(es: seq<Event>, i: nat)
    requires i < |es| && IsReportEvent(es[i])
    ensures !NoneOf(es, IsReportEvent)
  {}

  lemma ClosedHasReport(s: State, events: seq<Event>, context: FunctionContext, k: nat, p: nat, j: nat)
    requires AfterReplay(s, events, context, k, p) && j < s.openings && !IsOpen(s, j)
    ensures !NoneOf(EventsOn(EventTrace(s.trace), j), IsReportEvent)
  {
    var lo, hi := ClosedEvents(s, events, context, k, p, j);
    if j == 0 && ReportIn(events, k, p) {
      var q :| k <= q < p && events[q].record.PlatformReport?;
      ReportAmong(events[lo..hi], q - lo);
    } else {
      ReportAmong(events[lo..hi], hi - 1 - lo);
    }
  }

  /** In every run an invocation that was opened has been closed exactly when its processing state has a report. */
  lemma ClosedExactlyWhenReported(config: Config, invoke: InvokeEvent, inputs: seq<Input>, j: nat, ids: nat -> Bytes)
    requires j < EventMerge.Run(inputs).openings
    ensures IsOpen(EventMerge.Run(inputs), j)
       <==> !P.Run(config, invoke, Runs.StepsOn(EventMerge.Run(inputs).trace, j, ids)).state.reported
  {
    var s := EventMerge.Run(inputs);
    var steps := Runs.StepsOn(s.trace, j, ids);
    ReportedFlag(config, invoke, steps);
    NeverAmong(steps);
    StepsAreEvents(s.trace, j, ids);
    if !s.initHandled {
      BeforeReplay(inputs, j);
    } else {
      var k, p := ReplayOf(inputs);
      RunAfterReplay(inputs, k, p);
      if IsOpen(s, j) {
        OpenEvents(s, EventsOf(inputs), InvokesOf(inputs)[0].context, k, p, j);
      } else {
        ClosedHasReport(s, EventsOf(inputs), InvokesOf(inputs)[0].context, k, p, j);
      }
    }
  }

  /** So the flag by which the merge closes an invocation is the one that the processor sets. */
  lemma ReportedFlagAgrees(config: Config, inputs: seq<Input>, ids: nat -> Bytes)
    requires EventMerge.Run(inputs).invocation.Some?
    ensures var s := EventMerge.Run(inputs);
            var inv := s.invocation.value;
            inv.reported == P.Run(config, inv.invoke, Runs.StepsOn(s.trace, inv.ordinal, ids)).state.reported
  {
    var s := EventMerge.Run(inputs);
    var inv := s.invocation.value;
    var s' := RunInvariant(inputs);
    ClosedExactlyWhenReported(config, inv.invoke, inputs, inv.ordinal, ids);
    if s.initHandled {
      var k, p := ReplayOf(inputs);
      RunAfterReplay(inputs, k, p);
    }
  }

  // ---------------------------------------------------------------------------
  // Events on an invocation, one by one.

  /** Event c has been processed on invocation j. */
  predicate HandledOn(trace: seq<Action>, j: nat, c: nat) {
    c < |EventTrace(trace)| && EventTrace(trace)[c].how == OnInvocation(j)
  }

  function EventAt(trace: seq<Action>, c: nat): Event
    requires c < |EventTrace(trace)|
  {
    EventTrace(trace)[c].event
  }

  lemma HandledExactly(inputs: seq<Input>, k: nat, p: nat, j: nat, c: nat)
    requires Replayed(inputs, k, p) && j < |InvokesOf(inputs)|
    ensures var trace, events := EventMerge.Run(inputs).trace, EventsOf(inputs);
            && (HandledOn(trace, j, c) <==> c < |events| && GoesOn(events, k, p, j, c))
            && (HandledOn(trace, j, c) ==> EventAt(trace, c) == events[c])
  {
    var s, events := EventMerge.Run(inputs), EventsOf(inputs);
    EventsConserved(inputs);
    AttributionAfterReplay(inputs, k, p);
    assert |EventsIn(EventTrace(s.trace))| == |EventTrace(s.trace)|;
    if c < |EventTrace(s.trace)| {
      assert events[c] == EventsIn(EventTrace(s.trace))[c];
    }
  }

  ghost predicate SomeEvent(events: seq<Event>, k: nat, p: nat, j: nat, q: Event -> bool)
    requires p <= |events|
  {
    exists i: nat :: i < |events| && GoesOn(events, k, p, j, i) && q(events[i])
  }

  /** Some event that goes to j is among those given to j. */
  lemma AmongEvents(t: seq<TreatedEvent>, events: seq<Event>, context: FunctionContext, k: nat, p: nat, j: nat,
                    q: Event -> bool)
    requires Treated(t, events, context, k, p)
    ensures !NoneOf(EventsOn(t, j), q)
       <==> exists i: nat :: i < |t| && GoesOn(events, k, p, j, i) && q(events[i])
  {
    var lo, hi := Segment(t, events, context, k, p, j, |t|);
    assert t[..|t|] == t;
    if i: nat :| i < |t| && GoesOn(events, k, p, j, i) && q(events[i]) {
      assert events[lo..hi][i - lo] == events[i];
    }
    if !NoneOf(EventsOn(t, j), q) {
      var i :| 0 <= i < hi - lo && q(events[lo..hi][i]);
      assert GoesOn(events, k, p, j, lo + i) && q(events[lo + i]);
    }
  }

  lemma SomeEventGiven(inputs: seq<Input>, k: nat, p: nat, j: nat, q: Event -> bool)
    requires Replayed(inputs, k, p) && j < |InvokesOf(inputs)|
    ensures SomeEvent(EventsOf(inputs), k, p, j, q)
       <==> !NoneOf(EventsOn(EventTrace(EventMerge.Run(inputs).trace), j), q)
  {
    var s, events := EventMerge.Run(inputs), EventsOf(inputs);
    RunAfterReplay(inputs, k, p);
    AmongEvents(EventTrace(s.trace), events, InvokesOf(inputs)[0].context, k, p, j, q);
    forall i: nat | i < |events| && GoesOn(events, k, p, j, i) ensures i < |EventTrace(s.trace)| {
      HandledExactly(inputs, k, p, j, i);
    }
  }
}
