/** When the function spans of an invocation do not go out exactly once, in terms of what arrived
    (src/telemetry/telemetry_service.rs, src/telemetry/processor/span_processor.rs). */
module SpanLosses {
  import opened Sequences
  import opened Telemetry
  import opened SpanCapture
  import opened InvocationProcessing
  import opened Correlation
  import opened InvocationRuns
  import opened EventMerge
  import opened InvocationEvents
  import opened SpanAttribution
  import P = InvocationProcessing

  // ---------------------------------------------------------------------------
  // The steps of an invocation.

  /** The number of runtime-done events. */
  function Dones(steps: seq<P.Step>): nat {
    if steps == [] then 0 else Dones(steps[..|steps| - 1]) + if IsDone(Last(steps)) then 1 else 0
  }

  lemma {:induction false} NeverDone(steps: seq<P.Step>)
    ensures Dones(steps) == 0 <==> Never(steps, IsDone)
  {
    if steps != [] {
      NeverDone(steps[..|steps| - 1]);
      NeverInFront(steps, IsDone);
    }
  }

  /** The spans with mark n that the slots put out every time the runtime is done. */
  function CountEmitted(t: TracingState, n: nat): int {
    CountSlots(t, n) - CountSuperseded(t, n)
  }

  function Repeated(times: nat, n: int): int {
    if times == 0 then 0 else Repeated(times - 1, n) + n
  }

  /** What went out of the spans with mark n, when the slots have been emitted so many times. */
  ghost predicate Balance(out: nat, xs: seq<Scoped>, t: TracingState, dones: nat, n: nat) {
    out + CountWarmups(xs, n) + CountSlots(t, n) == Count(xs, n) + Repeated(dones, CountEmitted(t, n))
  }

  lemma BalanceBeforeDone(config: Config, invoke: InvokeEvent, steps: seq<P.Step>, n: nat)
    requires Produces(config, invoke) && Never(steps, IsDone)
    ensures var r := P.Run(config, invoke, steps); Balance(Count(r.spans, n), SpansIn(steps), r.state.tracing, 0, n)
  {
    SpansBeforeDone(config, invoke, steps);
    TracingOfRun(config, invoke, steps);
    CapturingAccounts(Fresh(config, invoke), SpansIn(steps), n, config.excludes);
  }

  lemma EventSpans(config: Config, s: InvocationState, step: P.Step, n: nat)
    requires ProducesSpans(config, s) && step.OnEvent?
    ensures Count(DoStep(config, s, step).spans, n) == if IsDone(step) then CountEmitted(s.tracing, n) else 0
    ensures DoStep(config, s, step).state.tracing == s.tracing
  {
    StepTracing(config, s, step);
    if IsDone(step) {
      DoneSpans(config, s, step);
      EmissionAccounts(s.tracing, DoneOf(step.event), n);
    } else {
      StepSpans(config, s, step);
    }
  }

  lemma BalanceNext(out: nat, out': nat, xs: seq<Scoped>, t: TracingState, dones: nat, n: nat, done: bool)
    requires Balance(out, xs, t, dones, n) && out' == out + if done then CountEmitted(t, n) else 0
    ensures Balance(out', xs, t, dones + if done then 1 else 0, n)
  {}

  lemma EventBalance(config: Config, r: Effect, r': Effect, xs: seq<Scoped>, dones: nat, step: P.Step, n: nat)
    requires ProducesSpans(config, r.state) && step.OnEvent?
    requires Balance(Count(r.spans, n), xs, r.state.tracing, dones, n)
    requires var e := DoStep(config, r.state, step); r'.spans == r.spans + e.spans && r'.state == e.state
    ensures Balance(Count(r'.spans, n), xs, r'.state.tracing, dones + if IsDone(step) then 1 else 0, n)
  {
    EventSpans(config, r.state, step, n);
    CountAppend(r.spans, DoStep(config, r.state, step).spans, n);
    BalanceNext(Count(r.spans, n), Count(r'.spans, n), xs, r.state.tracing, dones, n, IsDone(step));
  }

  lemma EventCounts(front: seq<P.Step>, step: P.Step)
    requires step.OnEvent?
    ensures Dones(front + [step]) == Dones(front) + if IsDone(step) then 1 else 0
    ensures SpansIn(front + [step]) == SpansIn(front)
  {
    assert (front + [step])[..|front|] == front;
    assert SpansIn(front + [step]) == SpansIn(front) + [];
  }

  lemma SpansNext(config: Config, invoke: InvokeEvent, front: seq<P.Step>, step: P.Step, r: Effect, r': Effect)
    requires r == P.Run(config, invoke, front) && r' == P.Run(config, invoke, front + [step])
    ensures var e := DoStep(config, r.state, step); r'.spans == r.spans + e.spans && r'.state == e.state
  {
    assert (front + [step])[..|front|] == front;
  }

  lemma Producing(config: Config, invoke: InvokeEvent, steps: seq<P.Step>)
    requires Produces(config, invoke)
    ensures ProducesSpans(config, P.Run(config, invoke, steps).state)
  {
    Sampling(config, invoke, steps);
  }

  lemma BalanceOfNext(config: Config, invoke: InvokeEvent, front: seq<P.Step>, step: P.Step, n: nat)
    requires Produces(config, invoke) && step.OnEvent?
    requires InBalance(config, invoke, front, n)
    ensures InBalance(config, invoke, front + [step], n)
  {
    var r, r' := P.Run(config, invoke, front), P.Run(config, invoke, front + [step]);
    Producing(config, invoke, front);
    SpansNext(config, invoke, front, step, r, r');
    EventCounts(front, step);
    EventBalance(config, r, r', SpansIn(front), Dones(front), step, n);
  }

  lemma SpansInFront(steps: seq<P.Step>, i: nat)
    requires NoSpansAfter(steps) && steps != [] && i < |steps| - 1 && IsDone(steps[i])
    ensures Last(steps).OnEvent?
  {}

  /** Whatever arrived is accounted for. */
  ghost predicate InBalance(config: Config, invoke: InvokeEvent, steps: seq<P.Step>, n: nat) {
    var r := P.Run(config, invoke, steps);
    Balance(Count(r.spans, n), SpansIn(steps), r.state.tracing, Dones(steps), n)
  }

  lemma NoSpansAfterEarlier(front: seq<P.Step>, step: P.Step)
    requires NoSpansAfter(front + [step])
    ensures NoSpansAfter(front)
  {
    var steps := front + [step];
    assert forall i :: 0 <= i < |front| ==> steps[i] == front[i];
  }

  lemma InBalanceBeforeDone(config: Config, invoke: InvokeEvent, steps: seq<P.Step>, n: nat)
    requires Produces(config, invoke) && Dones(steps) == 0
    ensures InBalance(config, invoke, steps, n)
  {
    NeverDone(steps);
    BalanceBeforeDone(config, invoke, steps, n);
  }

  /** The captured spans go out as often as the runtime is done; everything else goes out once. */
  lemma {:induction false} SpansByDones(config: Config, invoke: InvokeEvent, steps: seq<P.Step>, n: nat)
    requires Produces(config, invoke) && NoSpansAfter(steps)
    ensures InBalance(config, invoke, steps, n)
    decreases |steps|
  {
    if Dones(steps) == 0 {
      InBalanceBeforeDone(config, invoke, steps, n);
    } else {
      var front, step := steps[..|steps| - 1], Last(steps);
      assert steps == front + [step];
      NoSpansAfterEarlier(front, step);
      LastIsEvent(steps);
      SpansByDones(config, invoke, front, n);
      BalanceOfNext(config, invoke, front, step, n);
    }
  }

  /** When the runtime is done, no spans follow. */
  lemma LastIsEvent(steps: seq<P.Step>)
    requires NoSpansAfter(steps) && Dones(steps) > 0
    ensures Last(steps).OnEvent?
  {
    NeverDone(steps);
    var i :| 0 <= i < |steps| && IsDone(steps[i]);
    if i < |steps| - 1 {
      SpansInFront(steps, i);
    }
  }

  // ---------------------------------------------------------------------------
  // Exactly once.

  /** Some trigger or invocation span is among them. */
  ghost predicate Captures(xs: seq<Scoped>) {
    exists c: Category :: c.Capturable() && Has(xs, c)
  }

  lemma EmitsSomething(t: TracingState, c: Category) returns (n: nat)
    requires c.Capturable() && t.Slot(c).Some?
    ensures CountEmitted(t, n) > 0
  {
    n := if t.cxTrigger.Some? then t.cxTrigger.value.span.rest
         else if t.cxEarlyTrigger.Some? then t.cxEarlyTrigger.value.span.rest
         else if t.cxInvocation.Some? then t.cxInvocation.value.span.rest
         else if t.cxEarlyInvocation.Some? then t.cxEarlyInvocation.value.span.rest
         else t.genericInvocation.value.span.rest;
    EmittedExactly(t, n);
  }

  lemma EmittedExactly(t: TracingState, n: nat)
    ensures CountEmitted(t, n)
         == (if t.cxTrigger.Some? then CountSlot(t.cxTrigger, n) else CountSlot(t.cxEarlyTrigger, n))
            + (if t.cxInvocation.Some? then CountSlot(t.cxInvocation, n) else CountSlot(t.cxEarlyInvocation, n))
            + CountSlot(t.genericInvocation, n)
  {}

  /** Something is emitted when the runtime is done exactly when a trigger or invocation span arrived. */
  lemma EmitsExactlyWhen(config: Config, invoke: InvokeEvent, steps: seq<P.Step>)
    ensures Captures(SpansIn(steps))
       <==> exists n: nat :: CountEmitted(P.Run(config, invoke, steps).state.tracing, n) > 0
  {
    var t := P.Run(config, invoke, steps).state.tracing;
    if c: Category :| c.Capturable() && Has(SpansIn(steps), c) {
      SlotOfRun(config, invoke, steps, c);
      var n := EmitsSomething(t, c);
    }
    if n: nat :| CountEmitted(t, n) > 0 {
      EmittedExactly(t, n);
      SlotOfRun(config, invoke, steps, CxTrigger);
      SlotOfRun(config, invoke, steps, CxEarlyTrigger);
      SlotOfRun(config, invoke, steps, CxInvocation);
      SlotOfRun(config, invoke, steps, CxEarlyInvocation);
      SlotOfRun(config, invoke, steps, GenericInvocation);
    }
  }

  /** Of the spans with mark n, those that went out, were warmup spans or were superseded. */
  function Accounted(config: Config, invoke: InvokeEvent, steps: seq<P.Step>, n: nat): nat {
    var r := P.Run(config, invoke, steps);
    Count(r.spans, n) + CountWarmups(SpansIn(steps), n) + CountSuperseded(r.state.tracing, n)
  }

  /** All function spans of an invocation go out exactly once, except warmup and superseded ones. */
  ghost predicate AllOnce(config: Config, invoke: InvokeEvent, steps: seq<P.Step>) {
    forall n: nat :: Accounted(config, invoke, steps, n) == Count(SpansIn(steps), n)
  }

  /** Some function span of an invocation does not go out, and is no warmup or superseded one. */
  ghost predicate SomeLost(config: Config, invoke: InvokeEvent, steps: seq<P.Step>) {
    exists n: nat :: Accounted(config, invoke, steps, n) < Count(SpansIn(steps), n)
  }

  lemma {:induction false} RepeatedOnce(times: nat, n: nat)
    ensures Repeated(times, n) >= 0
    ensures Repeated(times, n) == n <==> times == 1 || n == 0
    ensures Repeated(times, n) < n <==> times == 0 && n > 0
  {
    if times > 0 {
      RepeatedOnce(times - 1, n);
    }
  }

  /** The account of a mark is right, or short, or over. */
  lemma BalanceTells(out: nat, xs: seq<Scoped>, t: TracingState, dones: nat, n: nat)
    requires Balance(out, xs, t, dones, n)
    ensures var account := out + CountWarmups(xs, n) + CountSuperseded(t, n);
            && (account == Count(xs, n) <==> dones == 1 || CountEmitted(t, n) == 0)
            && (account < Count(xs, n) <==> dones == 0 && CountEmitted(t, n) > 0)
            && CountEmitted(t, n) >= 0
  {
    EmittedExactly(t, n);
    RepeatedOnce(dones, CountEmitted(t, n));
  }

  lemma OnceOrLost(config: Config, invoke: InvokeEvent, steps: seq<P.Step>, n: nat)
    requires Produces(config, invoke) && NoSpansAfter(steps)
    ensures var e := CountEmitted(P.Run(config, invoke, steps).state.tracing, n);
            && (Accounted(config, invoke, steps, n) == Count(SpansIn(steps), n) <==> Dones(steps) == 1 || e == 0)
            && (Accounted(config, invoke, steps, n) < Count(SpansIn(steps), n) <==> Dones(steps) == 0 && e > 0)
            && e >= 0
  {
    var r := P.Run(config, invoke, steps);
    SpansByDones(config, invoke, steps, n);
    BalanceTells(Count(r.spans, n), SpansIn(steps), r.state.tracing, Dones(steps), n);
  }

  lemma SpansOutExactlyWhen(config: Config, invoke: InvokeEvent, steps: seq<P.Step>)
    requires Produces(config, invoke) && NoSpansAfter(steps)
    ensures AllOnce(config, invoke, steps) <==> Dones(steps) == 1 || !Captures(SpansIn(steps))
    ensures SomeLost(config, invoke, steps) <==> Dones(steps) == 0 && Captures(SpansIn(steps))
  {
    var t := P.Run(config, invoke, steps).state.tracing;
    EmitsExactlyWhen(config, invoke, steps);
    if Captures(SpansIn(steps)) {
      var n: nat :| CountEmitted(t, n) > 0;
      OnceOrLost(config, invoke, steps, n);
      assert AllOnce(config, invoke, steps) ==> Accounted(config, invoke, steps, n) == Count(SpansIn(steps), n);
    }
    if Dones(steps) == 1 || !Captures(SpansIn(steps)) {
      forall n: nat ensures Accounted(config, invoke, steps, n) == Count(SpansIn(steps), n) {
        OnceOrLost(config, invoke, steps, n);
      }
    }
    if n: nat :| Accounted(config, invoke, steps, n) < Count(SpansIn(steps), n) {
      OnceOrLost(config, invoke, steps, n);
    }
  }

  // ---------------------------------------------------------------------------
  // The service.

  ghost predicate DoneAt(trace: seq<Action>, j: nat, c: nat) {
    HandledOn(trace, j, c) && IsDoneEvent(EventAt(trace, c))
  }

  ghost predicate SomeDone(trace: seq<Action>, j: nat) {
    exists c: nat :: DoneAt(trace, j, c)
  }

  ghost predicate TwoDone(trace: seq<Action>, j: nat) {
    exists a: nat, b: nat :: a < b && DoneAt(trace, j, a) && DoneAt(trace, j, b)
  }

  lemma DoneAtOne(trace: seq<Action>, a: Action, j: nat, c: nat)
    ensures DoneAt(trace + [a], j, c)
       <==> DoneAt(trace, j, c)
            || (a.Handled? && a.how == OnInvocation(j) && IsDoneEvent(a.event) && c == |EventTrace(trace)|)
  {
    assert (trace + [a])[..|trace|] == trace;
    assert EventTrace(trace + [a]) == EventTrace(trace) + if a.Handled? then [TreatedEvent(a.event, a.how)] else [];
  }

  lemma DoneAtNext(trace: seq<Action>, a: Action, j: nat, more: bool)
    requires more <==> a.Handled? && a.how == OnInvocation(j) && IsDoneEvent(a.event)
    ensures SomeDone(trace + [a], j) <==> SomeDone(trace, j) || more
    ensures TwoDone(trace + [a], j) <==> TwoDone(trace, j) || (SomeDone(trace, j) && more)
  {
    var n := |EventTrace(trace)|;
    forall c: nat ensures DoneAt(trace + [a], j, c) <==> DoneAt(trace, j, c) || (more && c == n) {
      DoneAtOne(trace, a, j, c);
    }
    assert more ==> DoneAt(trace + [a], j, n);
  }

  lemma DonesOfOne(trace: seq<Action>, a: Action, j: nat, ids: nat -> Bytes)
    ensures Dones(StepsOn(trace + [a], j, ids))
         == Dones(StepsOn(trace, j, ids))
            + if a.Handled? && a.how == OnInvocation(j) && IsDoneEvent(a.event) then 1 else 0
  {
    assert (trace + [a])[..|trace|] == trace;
    var steps := StepsOn(trace, j, ids);
    assert steps + [] == steps;
    if StepsOn(trace + [a], j, ids) != steps {
      assert StepsOn(trace + [a], j, ids)[..|steps|] == steps;
    }
  }

  lemma {:induction false} DonesInTrace(trace: seq<Action>, j: nat, ids: nat -> Bytes)
    ensures Dones(StepsOn(trace, j, ids)) > 0 <==> SomeDone(trace, j)
    ensures Dones(StepsOn(trace, j, ids)) > 1 <==> TwoDone(trace, j)
  {
    if trace != [] {
      var front, a := trace[..|trace| - 1], Last(trace);
      assert trace == front + [a];
      DonesInTrace(front, j, ids);
      DonesOfOne(front, a, j, ids);
      DoneAtNext(front, a, j, a.Handled? && a.how == OnInvocation(j) && IsDoneEvent(a.event));
    }
  }

  /** Event c is a runtime-done event that goes to invocation j. */
  ghost predicate DoneFor(events: seq<Event>, k: nat, p: nat, j: nat, c: nat)
    requires p <= |events|
  {
    c < |events| && GoesOn(events, k, p, j, c) && IsDoneEvent(events[c])
  }

  /** Exactly one of the events that arrived is a runtime-done event that goes to invocation j. */
  ghost predicate DoneOnce(events: seq<Event>, k: nat, p: nat, j: nat)
    requires p <= |events|
  {
    && SomeEvent(events, k, p, j, IsDoneEvent)
    && forall a: nat, b: nat :: a < b ==> !(DoneFor(events, k, p, j, a) && DoneFor(events, k, p, j, b))
  }

  lemma DonesArrived(inputs: seq<Input>, k: nat, p: nat, j: nat, ids: nat -> Bytes)
    requires Replayed(inputs, k, p) && j < |InvokesOf(inputs)|
    ensures var dones := Dones(StepsOn(EventMerge.Run(inputs).trace, j, ids));
            && (dones == 1 <==> DoneOnce(EventsOf(inputs), k, p, j))
            && (dones > 0 <==> SomeEvent(EventsOf(inputs), k, p, j, IsDoneEvent))
  {
    var trace, events := EventMerge.Run(inputs).trace, EventsOf(inputs);
    DonesInTrace(trace, j, ids);
    forall c: nat ensures DoneAt(trace, j, c) <==> DoneFor(events, k, p, j, c) {
      HandledExactly(inputs, k, p, j, c);
    }
    if SomeDone(trace, j) {
      var c: nat :| DoneAt(trace, j, c);
      assert DoneFor(events, k, p, j, c);
    }
    if i: nat :| i < |events| && GoesOn(events, k, p, j, i) && IsDoneEvent(events[i]) {
      assert DoneAt(trace, j, i) <==> DoneFor(events, k, p, j, i);
    }
  }

  /** For whatever arrives at the service and however it is interleaved: when an invocation that produces spans has been
      opened, all its function spans go out exactly once, except warmup and superseded ones, if and only if exactly one
      runtime-done event goes to it or no trigger or invocation span arrives for it. */
  lemma InvocationSpansExactlyWhen(config: Config, invoke: InvokeEvent, inputs: seq<Input>, k: nat, p: nat, j: nat,
                                   ids: nat -> Bytes)
    requires Produces(config, invoke) && Replayed(inputs, k, p) && j < EventMerge.Run(inputs).openings
    ensures var steps := StepsOn(EventMerge.Run(inputs).trace, j, ids);
            AllOnce(config, invoke, steps)
            <==> DoneOnce(EventsOf(inputs), k, p, j) || !Captures(AllSpans(SpansTo(inputs, j)))
  {
    var trace := EventMerge.Run(inputs).trace;
    var steps := StepsOn(trace, j, ids);
    RunCounts(inputs);
    NoSpansAfterRuntimeDone(inputs, j, ids);
    SpansOutExactlyWhen(config, invoke, steps);
    DonesArrived(inputs, k, p, j, ids);
    SpansForSteps(trace, j, ids);
    SpansGiven(inputs, j);
  }

  /** An invocation that has ended has lost some of them if and only if a trigger or invocation span arrived for it, but
      no runtime-done event went to it. */
  lemma EndedSpansLostExactlyWhen(config: Config, invoke: InvokeEvent, inputs: seq<Input>, k: nat, p: nat, j: nat,
                                  ids: nat -> Bytes)
    requires Produces(config, invoke) && Replayed(inputs, k, p)
    requires j < |InvokesOf(inputs)| && EndedAt(EventsOf(inputs), k, p, j)
    ensures var steps := StepsOn(EventMerge.Run(inputs).trace, j, ids);
            SomeLost(config, invoke, steps)
            <==> !SomeEvent(EventsOf(inputs), k, p, j, IsDoneEvent) && Captures(AllSpans(SpansTo(inputs, j)))
  {
    var trace := EventMerge.Run(inputs).trace;
    var steps := StepsOn(trace, j, ids);
    ClosedWhenEnded(inputs, k, p, j);
    NoSpansAfterRuntimeDone(inputs, j, ids);
    SpansOutExactlyWhen(config, invoke, steps);
    DonesArrived(inputs, k, p, j, ids);
    SpansForSteps(trace, j, ids);
    SpansGiven(inputs, j);
  }

  // ---------------------------------------------------------------------------
  // An input that loses spans.

  function LossInputs(e: InvokeEvent, rs: seq<ResourceSpans>): seq<Input> {
    [Invoked(e), SpansReceived(rs), TelemetryReceived(ReportEvents(e))]
  }

  lemma LossArrives(e: InvokeEvent, rs: seq<ResourceSpans>)
    ensures InvokesOf(LossInputs(e, rs)) == [e] && EventsOf(LossInputs(e, rs)) == ReportEvents(e)
    ensures SpansTo(LossInputs(e, rs), 0) == rs
  {
    var one, two, inputs := [Invoked(e)], [Invoked(e), SpansReceived(rs)], LossInputs(e, rs);
    assert inputs[..2] == two && two[..1] == one && one[..0] == [];
    assert Last(one) == Invoked(e) && Last(two) == SpansReceived(rs) && Last(inputs).TelemetryReceived?;
    assert InvokesOf(one) == [] + [e] == [e] && InvokesOf(two) == [e] + [] == [e];
    assert EventsOf([]) == [] && EventsOf(one) == EventsOf([]) + [] && EventsOf(two) == EventsOf(one) + [];
    assert EventsOf(inputs) == EventsOf(two) + ReportEvents(e);
    assert OwnerOf(one) == 0;
    assert SpansTo(one, 0) == [] + [] == [] && SpansTo(two, 0) == [] + rs == rs;
  }

  /** An invocation that an old report ends as it starts loses its trigger and invocation spans. */
  lemma ReplayedReportLosesSpans(config: Config, invoke: InvokeEvent, e: InvokeEvent, rs: seq<ResourceSpans>,
                                 ids: nat -> Bytes)
    requires Produces(config, invoke) && Captures(AllSpans(rs))
    ensures SomeLost(config, invoke, StepsOn(EventMerge.Run(LossInputs(e, rs)).trace, 0, ids))
  {
    LossArrives(e, rs);
    ReportEnds(e);
    assert !SomeEvent(ReportEvents(e), 0, 2, 0, IsDoneEvent);
    EndedSpansLostExactlyWhen(config, invoke, LossInputs(e, rs), 0, 2, 0, ids);
  }
}
