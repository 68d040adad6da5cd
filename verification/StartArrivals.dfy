/** Which start logs the service loses, in terms of what arrived (src/telemetry/telemetry_service.rs,
    src/telemetry/processor/telemetry_processor.rs). */
module StartArrivals {
  import opened Sequences
  import opened Telemetry
  import opened SpanCapture
  import opened InvocationProcessing
  import opened DelayedLogs
  import opened InvocationRuns
  import opened EventMerge
  import opened InvocationEvents
  import opened SpanAttribution
  import opened SpanTiming
  import opened StartLogs
  import opened ServiceLogs
  import opened ServiceStarts
  import Attribution
  import P = InvocationProcessing

  predicate IsStartEvent(e: Event) {
    e.record.PlatformStart?
  }

  // ---------------------------------------------------------------------------
  // Start events that are delayed, in the trace.

  /** Event c was the start of invocation j, and nothing that releases its log was ahead of it. */
  ghost predicate HeldAt(config: Config, trace: seq<Action>, j: nat, c: nat) {
    && HandledOn(trace, j, c) && IsStartEvent(EventAt(trace, c)) && config.tracingMode.OtelInstrumentation?
    && (forall i: nat :: i < c && HandledOn(trace, j, i) ==> !IsDoneEvent(EventAt(trace, i)))
    && !Has(AllSpans(SpansAhead(trace, j, c)), CxEarlyInvocation)
  }

  lemma HeldAtStays(config: Config, trace: seq<Action>, a: Action, j: nat, c: nat)
    requires c < |EventTrace(trace)|
    ensures HeldAt(config, trace + [a], j, c) <==> HeldAt(config, trace, j, c)
  {
    AheadStays(trace, [a], j, c);
    HandledOnStays(trace, [a], j, c);
    forall i: nat | i < c ensures HandledOn(trace + [a], j, i) <==> HandledOn(trace, j, i) {
      HandledOnStays(trace, [a], j, i);
    }
  }

  lemma {:induction false} NoneOn(t: seq<TreatedEvent>, j: nat, q: Event -> bool)
    ensures NoneOf(EventsOn(t, j), q)
       <==> forall i: nat :: i < |t| && t[i].how == OnInvocation(j) ==> !q(t[i].event)
  {
    if t != [] {
      var front := t[..|t| - 1];
      NoneOn(front, j, q);
      NoneOfNext(EventsOn(front, j), Last(t).event, q);
      assert forall i: nat :: i < |front| ==> front[i] == t[i];
      assert EventsOn(front, j) + [] == EventsOn(front, j);
    }
  }

  lemma NothingReleasesInTrace(config: Config, trace: seq<Action>, j: nat, ids: nat -> Bytes)
    ensures NothingReleases(config, StepsOn(trace, j, ids))
       <==> config.tracingMode.OtelInstrumentation?
            && (forall i: nat :: HandledOn(trace, j, i) ==> !IsDoneEvent(EventAt(trace, i)))
            && !Has(AllSpans(SpansFor(trace, j)), CxEarlyInvocation)
  {
    var steps, t := StepsOn(trace, j, ids), EventTrace(trace);
    NeverAmong(steps);
    StepsAreEvents(trace, j, ids);
    SpansForSteps(trace, j, ids);
    NoneOn(t, j, IsDoneEvent);
    assert forall i: nat :: HandledOn(trace, j, i) <==> i < |t| && t[i].how == OnInvocation(j);
  }

  /** The latest event, in terms of the steps before it. */
  lemma HeldAtLast(config: Config, trace: seq<Action>, e: Event, j: nat, ids: nat -> Bytes)
    ensures HeldAt(config, trace + [Handled(e, OnInvocation(j))], j, |EventTrace(trace)|)
       <==> IsStartEvent(e) && NothingReleases(config, StepsOn(trace, j, ids))
  {
    var a, c := Handled(e, OnInvocation(j)), |EventTrace(trace)|;
    assert (trace + [a])[..|trace|] == trace;
    NothingReleasesInTrace(config, trace, j, ids);
    SpansAheadNext(trace, a, j, c);
    AllAhead(trace, j, c);
    assert SpansAhead(trace + [a], j, c) == SpansFor(trace, j);
    forall i: nat | i < c
      ensures HandledOn(trace + [a], j, i) <==> HandledOn(trace, j, i)
      ensures EventAt(trace + [a], i) == EventAt(trace, i)
    {
      HandledOnStays(trace, [a], j, i);
    }
  }

  ghost predicate SomeHeld(config: Config, trace: seq<Action>, j: nat) {
    exists c: nat :: HeldAt(config, trace, j, c)
  }

  ghost predicate TwoHeld(config: Config, trace: seq<Action>, j: nat) {
    exists a: nat, b: nat :: a < b && HeldAt(config, trace, j, a) && HeldAt(config, trace, j, b)
  }

  /** One more action, and whether it is a start event whose log is delayed. */
  lemma HeldNext(config: Config, trace: seq<Action>, a: Action, j: nat, more: bool)
    requires more <==> a.Handled? && HeldAt(config, trace + [a], j, |EventTrace(trace)|)
    ensures SomeHeld(config, trace + [a], j) <==> SomeHeld(config, trace, j) || more
    ensures TwoHeld(config, trace + [a], j) <==> TwoHeld(config, trace, j) || (SomeHeld(config, trace, j) && more)
  {
    var n := |EventTrace(trace)|;
    assert (trace + [a])[..|trace|] == trace;
    forall c: nat ensures HeldAt(config, trace + [a], j, c) <==> HeldAt(config, trace, j, c) || (more && c == n) {
      if c < n {
        HeldAtStays(config, trace, a, j, c);
      }
    }
  }

  /** One more action on the invocation. */
  lemma HeldStartsOnIt(config: Config, trace: seq<Action>, a: Action, j: nat, ids: nat -> Bytes) returns (more: bool)
    requires a.Handled? && a.how == OnInvocation(j)
    ensures more <==> HeldAt(config, trace + [a], j, |EventTrace(trace)|)
    ensures HeldStarts(config, StepsOn(trace + [a], j, ids))
         == HeldStarts(config, StepsOn(trace, j, ids)) + if more then 1 else 0
  {
    var steps, step := StepsOn(trace, j, ids), OnEvent(a.event, ids(|trace|));
    more := IsStartEvent(a.event) && NothingReleases(config, steps);
    HeldAtLast(config, trace, a.event, j, ids);
    assert (trace + [a])[..|trace|] == trace && (steps + [step])[..|steps|] == steps;
  }

  /** One more action elsewhere, or more spans. */
  lemma HeldStartsElsewhere(config: Config, trace: seq<Action>, a: Action, j: nat, ids: nat -> Bytes)
    requires !(a.Handled? && a.how == OnInvocation(j))
    ensures HeldStarts(config, StepsOn(trace + [a], j, ids)) == HeldStarts(config, StepsOn(trace, j, ids))
  {
    var steps := StepsOn(trace, j, ids);
    assert (trace + [a])[..|trace|] == trace && steps + [] == steps;
    if a.HandledSpans? {
      SpansHoldNothing(config, steps, a.spans);
    }
  }

  lemma {:induction false} HeldStartsInTrace(config: Config, trace: seq<Action>, j: nat, ids: nat -> Bytes)
    ensures HeldStarts(config, StepsOn(trace, j, ids)) > 0 <==> SomeHeld(config, trace, j)
    ensures HeldStarts(config, StepsOn(trace, j, ids)) > 1 <==> TwoHeld(config, trace, j)
  {
    if trace != [] {
      var front, a := trace[..|trace| - 1], Last(trace);
      assert trace == front + [a];
      HeldStartsInTrace(config, front, j, ids);
      if a.Handled? && a.how == OnInvocation(j) {
        var more := HeldStartsOnIt(config, front, a, j, ids);
        HeldNext(config, front, a, j, more);
      } else {
        HeldStartsElsewhere(config, front, a, j, ids);
        NotHeldElsewhere(config, front, a, j);
      }
    }
  }

  lemma NotHeldElsewhere(config: Config, trace: seq<Action>, a: Action, j: nat)
    requires !(a.Handled? && a.how == OnInvocation(j))
    ensures SomeHeld(config, trace + [a], j) <==> SomeHeld(config, trace, j)
    ensures TwoHeld(config, trace + [a], j) <==> TwoHeld(config, trace, j)
  {
    assert (trace + [a])[..|trace|] == trace;
    HeldNext(config, trace, a, j, false);
  }

  lemma SpansHoldNothing(config: Config, steps: seq<P.Step>, rs: seq<ResourceSpans>)
    ensures HeldStarts(config, steps + [OnSpans(rs)]) == HeldStarts(config, steps)
  {
    assert (steps + [OnSpans(rs)])[..|steps|] == steps;
  }

  // ---------------------------------------------------------------------------
  // In terms of what arrived.

  /** Event c is a start event that goes to invocation j; in OTel mode, none of the events that go there before it is a
      runtime-done event, and none of the spans that arrive for the invocation before the event can be processed is an
      early invocation span. */
  ghost predicate DelayedStart(config: Config, inputs: seq<Input>, k: nat, p: nat, j: nat, c: nat)
    requires p <= |EventsOf(inputs)|
  {
    var events := EventsOf(inputs);
    && c < |events| && GoesOn(events, k, p, j, c) && IsStartEvent(events[c])
    && config.tracingMode.OtelInstrumentation?
    && (forall i: nat :: i < c && GoesOn(events, k, p, j, i) ==> !IsDoneEvent(events[i]))
    && !Has(AllSpans(SpansBefore(inputs, j, c)), CxEarlyInvocation)
  }

  /** Two start events of the invocation are delayed: the second replaces the first. */
  ghost predicate Replaces(config: Config, inputs: seq<Input>, k: nat, p: nat, j: nat)
    requires p <= |EventsOf(inputs)|
  {
    exists a: nat, b: nat ::
      a < b && DelayedStart(config, inputs, k, p, j, a) && DelayedStart(config, inputs, k, p, j, b)
  }

  /** In OTel mode, the invocation is ended with a start event, but no runtime-done event and no early invocation
      span. */
  ghost predicate KeepsBack(config: Config, inputs: seq<Input>, k: nat, p: nat, j: nat)
    requires p <= |EventsOf(inputs)|
  {
    var events := EventsOf(inputs);
    && config.tracingMode.OtelInstrumentation? && EndedAt(events, k, p, j)
    && SomeEvent(events, k, p, j, IsStartEvent) && !SomeEvent(events, k, p, j, IsDoneEvent)
    && !Has(AllSpans(SpansTo(inputs, j)), CxEarlyInvocation)
  }

  ghost predicate LosesStartAt(config: Config, inputs: seq<Input>, k: nat, p: nat, j: nat) {
    && Replayed(inputs, k, p) && j < |InvokesOf(inputs)|
    && (Replaces(config, inputs, k, p, j) || KeepsBack(config, inputs, k, p, j))
  }

  ghost predicate LosesStarts(config: Config, inputs: seq<Input>) {
    exists k: nat, p: nat, j: nat :: LosesStartAt(config, inputs, k, p, j)
  }

  // ---------------------------------------------------------------------------

  lemma HeldExactlyWhen(config: Config, inputs: seq<Input>, k: nat, p: nat, j: nat, c: nat)
    requires Replayed(inputs, k, p) && j < |InvokesOf(inputs)|
    ensures HeldAt(config, EventMerge.Run(inputs).trace, j, c) <==> DelayedStart(config, inputs, k, p, j, c)
  {
    var trace, events := EventMerge.Run(inputs).trace, EventsOf(inputs);
    HandledExactly(inputs, k, p, j, c);
    SpansGivenAhead(inputs, j, c);
    forall i: nat
      ensures HandledOn(trace, j, i) <==> i < |events| && GoesOn(events, k, p, j, i)
      ensures HandledOn(trace, j, i) ==> EventAt(trace, i) == events[i]
    {
      HandledExactly(inputs, k, p, j, i);
    }
  }

  lemma ReplacesExactlyWhen(g: Setting, inputs: seq<Input>, k: nat, p: nat, j: nat)
    requires Replayed(inputs, k, p) && j < |InvokesOf(inputs)|
    ensures ReplacesStart(g, EventMerge.Run(inputs), j) <==> Replaces(g.config, inputs, k, p, j)
  {
    var trace := EventMerge.Run(inputs).trace;
    HeldStartsInTrace(g.config, trace, j, g.ids);
    forall c: nat ensures HeldAt(g.config, trace, j, c) <==> DelayedStart(g.config, inputs, k, p, j, c) {
      HeldExactlyWhen(g.config, inputs, k, p, j, c);
    }
  }

  lemma {:induction false} StartsAmong(steps: seq<P.Step>)
    ensures StartsIn(steps) == StartsOf(EventsAmong(steps))
  {
    if steps != [] {
      var front, step := steps[..|steps| - 1], Last(steps);
      StartsAmong(front);
      if step.OnEvent? {
        StartsOfNext(EventsAmong(front), step.event);
      } else {
        assert EventsAmong(steps) == EventsAmong(front);
      }
    }
  }

  lemma {:induction false} SomeStart(es: seq<Event>)
    ensures StartsOf(es) == [] <==> NoneOf(es, IsStartEvent)
  {
    if es != [] {
      var front := es[..|es| - 1];
      SomeStart(front);
      NoneOfNext(front, Last(es), IsStartEvent);
      assert es == front + [Last(es)];
    }
  }

  lemma KeepsBackExactlyWhen(g: Setting, inputs: seq<Input>, k: nat, p: nat, j: nat)
    requires Replayed(inputs, k, p) && j < |InvokesOf(inputs)|
    ensures j < EventMerge.Run(inputs).openings && KeepsBackStart(g, EventMerge.Run(inputs), j)
       <==> KeepsBack(g.config, inputs, k, p, j)
  {
    var s := EventMerge.Run(inputs);
    var steps := StepsOn(s.trace, j, g.ids);
    ClosedWhenEnded(inputs, k, p, j);
    SpansGiven(inputs, j);
    StepsAreEvents(s.trace, j, g.ids);
    StartsAmong(steps);
    SomeStart(EventsAmong(steps));
    NeverAmong(steps);
    SpansForSteps(s.trace, j, g.ids);
    SomeEventGiven(inputs, k, p, j, IsStartEvent);
    SomeEventGiven(inputs, k, p, j, IsDoneEvent);
  }

  /** Nothing is given to an invocation that has not been opened. */
  lemma OpenedIfHeld(config: Config, inputs: seq<Input>, k: nat, p: nat, j: nat)
    requires Replayed(inputs, k, p) && j < |InvokesOf(inputs)| && Replaces(config, inputs, k, p, j)
    ensures j < EventMerge.Run(inputs).openings
  {
    var a: nat, b: nat :| a < b && DelayedStart(config, inputs, k, p, j, a) && DelayedStart(config, inputs, k, p, j, b);
    OpenOrClosed(inputs, k, p);
    RunCounts(inputs);
    Attribution.OrdinalMonotone(EventsOf(inputs), k, p, a, |EventsOf(inputs)|);
  }

  lemma LostExactlyAt(g: Setting, inputs: seq<Input>, k: nat, p: nat, j: nat)
    requires Replayed(inputs, k, p)
    ensures j < EventMerge.Run(inputs).openings
              && (ReplacesStart(g, EventMerge.Run(inputs), j) || KeepsBackStart(g, EventMerge.Run(inputs), j))
       <==> LosesStartAt(g.config, inputs, k, p, j)
  {
    RunCounts(inputs);
    if j < |InvokesOf(inputs)| {
      ReplacesExactlyWhen(g, inputs, k, p, j);
      KeepsBackExactlyWhen(g, inputs, k, p, j);
      if Replaces(g.config, inputs, k, p, j) {
        OpenedIfHeld(g.config, inputs, k, p, j);
      }
    }
  }

  /** The start logs of an invocation that has ended have all gone out, once and in order, exactly when it does not lose
      any. */
  lemma EndedStartLogsOutExactlyWhen(g: Setting, inputs: seq<Input>, k: nat, p: nat, j: nat)
    requires g.config.structuredLogs && g.config.logStart
    requires Replayed(inputs, k, p) && j < |InvokesOf(inputs)| && EndedAt(EventsOf(inputs), k, p, j)
    ensures var trace := EventMerge.Run(inputs).trace;
            var emitted := Emitted(g.config, g.invokeOf(j), StepsOn(trace, j, g.ids));
            Starts(emitted) == StartsOf(EventsOn(EventTrace(trace), j))
            <==> !LosesStartAt(g.config, inputs, k, p, j)
  {
    var steps := StepsOn(EventMerge.Run(inputs).trace, j, g.ids);
    ClosedWhenEnded(inputs, k, p, j);
    LostExactlyAt(g, inputs, k, p, j);
    StartLogsOutExactlyWhen(g.config, g.invokeOf(j), steps);
    StartsAmong(steps);
    StepsAreEvents(EventMerge.Run(inputs).trace, j, g.ids);
  }

  /** Before normal processing starts, no start log is lost. */
  lemma NoneLostBefore(g: Setting, inputs: seq<Input>)
    requires !EventMerge.Run(inputs).initHandled
    ensures NoStartLost(g, EventMerge.Run(inputs)) && !LosesStarts(g.config, inputs)
  {
    var s := EventMerge.Run(inputs);
    forall j: nat | j < s.openings ensures !ReplacesStart(g, s, j) && !KeepsBackStart(g, s, j) {
      var steps := StepsOn(s.trace, j, g.ids);
      BeforeReplay(inputs, j);
      StepsAreEvents(s.trace, j, g.ids);
      StartsAmong(steps);
      HeldAreStarts(g.config, steps);
    }
    if k: nat, p: nat, j: nat :| LosesStartAt(g.config, inputs, k, p, j) {
      RunAfterReplay(inputs, k, p);
    }
  }

  lemma {:induction false} HeldAreStarts(config: Config, steps: seq<P.Step>)
    ensures HeldStarts(config, steps) <= |StartsIn(steps)|
  {
    if steps != [] {
      HeldAreStarts(config, steps[..|steps| - 1]);
    }
  }

  lemma LostExactlyWhen(g: Setting, inputs: seq<Input>)
    ensures NoStartLost(g, EventMerge.Run(inputs)) <==> !LosesStarts(g.config, inputs)
  {
    var s := EventMerge.Run(inputs);
    if !s.initHandled {
      NoneLostBefore(g, inputs);
    } else {
      var k, p := ReplayOf(inputs);
      forall j: nat
        ensures j < s.openings && (ReplacesStart(g, s, j) || KeepsBackStart(g, s, j))
           <==> LosesStartAt(g.config, inputs, k, p, j)
      {
        LostExactlyAt(g, inputs, k, p, j);
      }
      if k': nat, p': nat, j: nat :| LosesStartAt(g.config, inputs, k', p', j) {
        OneReplay(inputs, k, p, k', p');
      }
    }
  }

  /** For whatever arrives at the service and however it is interleaved and batched, all its start logs are there,
      unless in OTel mode two start events of an invocation arrive before anything that releases their logs, or an
      invocation is ended by a report with a start event and nothing that releases its log: then and only then is
      something missing. */
  lemma StartLogsEndToEnd(g: Setting, inputs: seq<Input>)
    requires g.config.structuredLogs && g.config.logStart
    ensures AllStartsThere(g, EventMerge.Run(inputs), EventsOf(inputs)) <==> !LosesStarts(g.config, inputs)
  {
    AllStartsUnlessLost(g, inputs);
    LostExactlyWhen(g, inputs);
  }

  // ---------------------------------------------------------------------------
  // Such an input.

  function ReportInputs(e: InvokeEvent): seq<Input> {
    [Invoked(e), TelemetryReceived(ReportEvents(e))]
  }

  lemma ReportArrives(e: InvokeEvent)
    ensures InvokesOf(ReportInputs(e)) == [e] && EventsOf(ReportInputs(e)) == ReportEvents(e)
    ensures SpansTo(ReportInputs(e), 0) == []
  {
    var inputs := ReportInputs(e);
    assert inputs[..1] == [Invoked(e)] && [Invoked(e)][..0] == [];
    assert Last([Invoked(e)]) == Invoked(e) && Last(inputs) == TelemetryReceived(ReportEvents(e));
    assert InvokesOf([Invoked(e)]) == [] + [e] == [e] && EventsOf([Invoked(e)]) == [] + [] == [];
    assert SpansTo([Invoked(e)], 0) == [] + [] == [];
  }

  /** In OTel mode an init start, an old report and the start of the invocation, in this order, lose the start log,
      although only one start event arrived and nothing fails. */
  lemma ReplayedReportDropsStart(g: Setting, e: InvokeEvent)
    requires g.config.structuredLogs && g.config.logStart && g.config.tracingMode.OtelInstrumentation?
    ensures !AllStartsThere(g, EventMerge.Run(ReportInputs(e)), EventsOf(ReportInputs(e)))
  {
    var inputs, events := ReportInputs(e), ReportEvents(e);
    ReportArrives(e);
    ReportEnds(e);
    assert IsStartEvent(events[2]);
    assert SomeEvent(events, 0, 2, 0, IsStartEvent) && !SomeEvent(events, 0, 2, 0, IsDoneEvent);
    assert !Has(AllSpans([]), CxEarlyInvocation);
    assert LosesStartAt(g.config, inputs, 0, 2, 0);
    StartLogsEndToEnd(g, inputs);
  }
}
