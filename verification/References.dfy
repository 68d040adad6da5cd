/** Exactly when all the logs of an invocation refer to one span, in terms of what arrived
    (src/telemetry/mod.rs, src/telemetry/processor/telemetry_processor.rs). */
module References {
  import opened Sequences
  import opened Telemetry
  import opened SpanCapture
  import opened InvocationProcessing
  import opened DelayedLogs
  import opened Correlation
  import opened StartLogs

  // ---------------------------------------------------------------------------
  // The reference in terms of what arrived.

  /** The id made up for the latest init start. */
  function InitId(steps: seq<Step>): Option<Bytes> {
    if steps == [] then None
    else if IsInitStart(Last(steps)) then Some(Last(steps).randomId)
    else InitId(steps[..|steps| - 1])
  }

  /** The first final invocation span, or else the first early one, or else the first generic one. */
  function InvocationSpanOf(config: Config, steps: seq<Step>): Option<Span> {
    var xs := SpansIn(steps);
    var final, early := FirstOf(xs, CxInvocation, config.excludes), FirstOf(xs, CxEarlyInvocation, config.excludes);
    var generic := FirstOf(xs, GenericInvocation, config.excludes);
    if final.Some? then Some(final.value.span)
    else if early.Some? then Some(early.value.span)
    else if generic.Some? then Some(generic.value.span)
    else None
  }

  /** While init is going on, its id in the trace of the invocation span; otherwise the invocation span. Where one is
      missing, the ids that the invoke event gives. */
  ghost function RefOf(config: Config, invoke: InvokeEvent, steps: seq<Step>): SpanRef {
    var span := InvocationSpanOf(config, steps);
    var own := if span.Some? then SpanRef(span.value.traceId, span.value.spanId)
               else SpanRef(invoke.traceId, invoke.invocationSpanId);
    if InitId(steps).Some? && Never(steps, IsInitReport) then own.(spanId := InitId(steps).value) else own
  }

  lemma StepInitId(config: Config, s: InvocationState, step: Step)
    ensures NextState(config, s, step).initSpanId == if IsInitStart(step) then Some(step.randomId) else s.initSpanId
    ensures NextState(config, s, step).invoke == s.invoke
  {
    StepInit(config, s, step);
  }

  lemma {:induction false} InitIdOfRun(config: Config, invoke: InvokeEvent, steps: seq<Step>)
    ensures Run(config, invoke, steps).state.initSpanId == InitId(steps)
    ensures Run(config, invoke, steps).state.invoke == invoke
    ensures InitId(steps).Some? <==> !Never(steps, IsInitStart)
  {
    if steps != [] {
      InitIdOfRun(config, invoke, steps[..|steps| - 1]);
      NeverInFront(steps, IsInitStart);
      StepInitId(config, Run(config, invoke, steps[..|steps| - 1]).state, Last(steps));
    }
  }

  /** The reference in the state of a run is that of what arrived. */
  lemma ReferenceOfRun(config: Config, invoke: InvokeEvent, steps: seq<Step>)
    ensures Run(config, invoke, steps).state.CurrentSpanRef() == RefOf(config, invoke, steps)
  {
    InitIdOfRun(config, invoke, steps);
    InitFlags(config, invoke, steps);
    SlotOfRun(config, invoke, steps, CxInvocation);
    SlotOfRun(config, invoke, steps, CxEarlyInvocation);
    SlotOfRun(config, invoke, steps, GenericInvocation);
  }

  // ---------------------------------------------------------------------------
  // The steps that put out logs, in terms of what arrived.

  /** A start log or function logs wait after these steps. */
  ghost predicate SomethingWaits(config: Config, steps: seq<Step>) {
    && NothingReleases(config, steps)
    && ((config.logStart && StartsIn(steps) != []) || TextsAfterReport(config, steps) != [])
  }

  /** A step after these puts out logs. */
  ghost predicate Speaks(config: Config, steps: seq<Step>, step: Step) {
    && config.structuredLogs
    && match step
       case OnSpans(_) => SomethingWaits(config, steps) && Has(SpansIn(steps + [step]), CxEarlyInvocation)
       case OnEvent(e, _) =>
         match e.record
         case FunctionLog(_) => TextIn(config, step) != [] && !NothingReleases(config, steps)
         case PlatformStart(_) => config.logStart && !NothingReleases(config, steps)
         case PlatformRuntimeDone(_, _, _) => config.logRuntimeDone || SomethingWaits(config, steps)
         case PlatformReport(_) =>
           config.logReport || (NothingReleases(config, steps) && TextsAfterReport(config, steps) != [])
         case _ => false
  }

  lemma WhatWaits(config: Config, invoke: InvokeEvent, steps: seq<Step>)
    requires config.structuredLogs
    ensures var s := Run(config, invoke, steps).state;
            && (s.delayingLogs <==> NothingReleases(config, steps))
            && s.logs == (if NothingReleases(config, steps) then TextsAfterReport(config, steps) else [])
            && (s.delayingLogs && DelayedDrafts(config, s) != [] <==> SomethingWaits(config, steps))
  {
    var s := Run(config, invoke, steps).state;
    DelayedExactlyWhen(config, invoke, steps);
    HeldExactly(config, invoke, steps);
    StartSeen(config, invoke, steps);
    assert |DelayedDrafts(config, s)| == (if s.start.Some? && config.logStart then 1 else 0) + |s.logs|;
  }

  lemma EventSpeaks(config: Config, invoke: InvokeEvent, steps: seq<Step>, step: Step)
    requires step.OnEvent?
    ensures DraftsOf(config, Run(config, invoke, steps).state, step) != [] <==> Speaks(config, steps, step)
  {
    if config.structuredLogs {
      WhatWaits(config, invoke, steps);
      EventDrafts(config, Run(config, invoke, steps).state, step.event);
    }
  }

  lemma EventDrafts(config: Config, s: InvocationState, e: Event)
    requires config.structuredLogs
    ensures e.record.FunctionLog? ==>
              (DraftsOnEvent(config, s, e) != [] <==> TextIn(config, OnEvent(e, [])) != [] && !s.delayingLogs)
    ensures e.record.PlatformStart? ==> (DraftsOnEvent(config, s, e) != [] <==> config.logStart && !s.delayingLogs)
    ensures e.record.PlatformRuntimeDone? ==>
              (DraftsOnEvent(config, s, e) != []
               <==> config.logRuntimeDone || (s.delayingLogs && DelayedDrafts(config, s) != []))
    ensures e.record.PlatformReport? ==> (DraftsOnEvent(config, s, e) != [] <==> config.logReport || s.logs != [])
    ensures IsQuiet(e) ==> DraftsOnEvent(config, s, e) == []
  {
    match e.record
    case PlatformRuntimeDone(_, _, _) =>
      assert |RuntimeDoneDrafts(config, s, e)| == |ReleasedDrafts(config, s)| + if config.logRuntimeDone then 1 else 0;
    case PlatformReport(_) =>
      assert |ReportDrafts(config, s, e)| == |s.logs| + if config.logReport then 1 else 0;
    case _ =>
  }

  lemma SpansSpeak(config: Config, invoke: InvokeEvent, steps: seq<Step>, step: Step)
    requires step.OnSpans?
    ensures DraftsOf(config, Run(config, invoke, steps).state, step) != [] <==> Speaks(config, steps, step)
  {
    var s := Run(config, invoke, steps).state;
    RunOne(config, invoke, steps, step);
    SlotOfRun(config, invoke, steps + [step], CxEarlyInvocation);
    PreparedKeepsAll(config, s, step);
    if config.structuredLogs {
      WhatWaits(config, invoke, steps);
    }
  }

  lemma SpeaksExactly(config: Config, invoke: InvokeEvent, steps: seq<Step>, step: Step)
    ensures DraftsOf(config, Run(config, invoke, steps).state, step) != [] <==> Speaks(config, steps, step)
  {
    if step.OnEvent? {
      EventSpeaks(config, invoke, steps, step);
    } else {
      SpansSpeak(config, invoke, steps, step);
    }
  }

  /** What the logs of a step after these refer to. */
  ghost function RefAt(config: Config, invoke: InvokeEvent, steps: seq<Step>, step: Step): SpanRef {
    RefOf(config, invoke, if step.OnSpans? then steps + [step] else steps)
  }

  lemma PreparedRef(config: Config, invoke: InvokeEvent, steps: seq<Step>, step: Step)
    ensures Prepared(config, Run(config, invoke, steps).state, step).CurrentSpanRef()
         == RefAt(config, invoke, steps, step)
  {
    var s := Run(config, invoke, steps).state;
    if step.OnEvent? {
      ReferenceOfRun(config, invoke, steps);
    } else {
      ReferenceOfRun(config, invoke, steps + [step]);
      RunOne(config, invoke, steps, step);
      SpansKeepRef(config, s, step);
    }
  }

  lemma SpansKeepRef(config: Config, s: InvocationState, step: Step)
    requires step.OnSpans?
    ensures NextState(config, s, step).CurrentSpanRef() == Prepared(config, s, step).CurrentSpanRef()
  {}

  // ---------------------------------------------------------------------------

  /** Step q, if it puts out logs, refers to the span. */
  ghost predicate RefersAt(config: Config, invoke: InvokeEvent, steps: seq<Step>, q: nat, spanRef: SpanRef)
    requires q < |steps|
  {
    Speaks(config, steps[..q], steps[q]) ==> RefAt(config, invoke, steps[..q], steps[q]) == spanRef
  }

  ghost predicate RefersAlways(config: Config, invoke: InvokeEvent, steps: seq<Step>, spanRef: SpanRef) {
    forall q: nat :: q < |steps| ==> RefersAt(config, invoke, steps, q, spanRef)
  }

  lemma RefersAlwaysNext(config: Config, invoke: InvokeEvent, front: seq<Step>, step: Step, spanRef: SpanRef)
    ensures RefersAlways(config, invoke, front + [step], spanRef)
       <==> RefersAlways(config, invoke, front, spanRef)
            && (Speaks(config, front, step) ==> RefAt(config, invoke, front, step) == spanRef)
  {
    var steps := front + [step];
    forall q: nat | q < |front|
      ensures RefersAt(config, invoke, steps, q, spanRef) <==> RefersAt(config, invoke, front, q, spanRef)
    {
      assert steps[..q] == front[..q] && steps[q] == front[q];
    }
    assert steps[..|front|] == front && steps[|front|] == step;
    assert RefersAt(config, invoke, steps, |front|, spanRef)
      <==> (Speaks(config, front, step) ==> RefAt(config, invoke, front, step) == spanRef);
  }

  lemma StepRefers(config: Config, s: InvocationState, step: Step, logs: seq<LogRecord>, spanRef: SpanRef)
    ensures AllWith(logs + DoStep(config, s, step).logs, spanRef)
       <==> AllWith(logs, spanRef)
            && (DraftsOf(config, s, step) != [] ==> Prepared(config, s, step).CurrentSpanRef() == spanRef)
  {
    var made := DoStep(config, s, step).logs;
    DraftsAreStamped(s.lastLog, Prepared(config, s, step).CurrentSpanRef(), DraftsOf(config, s, step));
    assert forall i :: 0 <= i < |logs| ==> (logs + made)[i] == logs[i];
    assert forall i :: 0 <= i < |made| ==> (logs + made)[|logs| + i] == made[i];
    if made != [] {
      assert made[0].spanRef == Prepared(config, s, step).CurrentSpanRef();
    }
  }

  lemma LogsReferNext(config: Config, invoke: InvokeEvent, front: seq<Step>, step: Step, spanRef: SpanRef)
    ensures AllWith(Run(config, invoke, front + [step]).logs, spanRef)
       <==> AllWith(Run(config, invoke, front).logs, spanRef)
            && (Speaks(config, front, step) ==> RefAt(config, invoke, front, step) == spanRef)
  {
    var r := Run(config, invoke, front);
    SpeaksExactly(config, invoke, front, step);
    PreparedRef(config, invoke, front, step);
    StepRefers(config, r.state, step, r.logs, spanRef);
    LogsNext(config, invoke, front, step);
  }

  lemma LogsNext(config: Config, invoke: InvokeEvent, front: seq<Step>, step: Step)
    ensures var r := Run(config, invoke, front);
            Run(config, invoke, front + [step]).logs == r.logs + DoStep(config, r.state, step).logs
  {
    assert (front + [step])[..|front|] == front;
  }

  /** All the logs of an invocation refer to a span if and only if, at every step that puts out logs, that span is the
      one that what has arrived by then refers to. */
  lemma {:induction false} LogsReferExactlyWhen(config: Config, invoke: InvokeEvent, steps: seq<Step>, spanRef: SpanRef)
    ensures AllWith(Run(config, invoke, steps).logs, spanRef) <==> RefersAlways(config, invoke, steps, spanRef)
  {
    if steps != [] {
      var front, step := steps[..|steps| - 1], Last(steps);
      FrontAndLast(steps);
      LogsReferExactlyWhen(config, invoke, front, spanRef);
      LogsReferStep(config, invoke, front, step, spanRef);
    }
  }

  lemma LogsReferStep(config: Config, invoke: InvokeEvent, front: seq<Step>, step: Step, spanRef: SpanRef)
    requires AllWith(Run(config, invoke, front).logs, spanRef) <==> RefersAlways(config, invoke, front, spanRef)
    ensures AllWith(Run(config, invoke, front + [step]).logs, spanRef)
       <==> RefersAlways(config, invoke, front + [step], spanRef)
  {
    LogsReferNext(config, invoke, front, step, spanRef);
    RefersAlwaysNext(config, invoke, front, step, spanRef);
  }

  // ---------------------------------------------------------------------------
  // When they do not.

  /** A report that comes while init is going on, before the end of the runtime, refers to init, and the runtime-done
      log to the invocation: the logs do not refer to one span. */
  lemma ReportSplitsReference(config: Config, invoke: InvokeEvent, a: Event, b: Event, c: Event, d: Event, id: Bytes,
                              spanRef: SpanRef)
    requires config.structuredLogs && config.logReport && config.logRuntimeDone
    requires a.record.PlatformInitStart? && b.record.PlatformReport? && c.record.PlatformInitReport?
    requires d.record.PlatformRuntimeDone? && id != invoke.invocationSpanId
    ensures var steps := [OnEvent(a, id), OnEvent(b, []), OnEvent(c, []), OnEvent(d, [])];
            !AllWith(Run(config, invoke, steps).logs, spanRef)
  {
    var steps := [OnEvent(a, id), OnEvent(b, []), OnEvent(c, []), OnEvent(d, [])];
    LogsReferExactlyWhen(config, invoke, steps, spanRef);
    if RefersAlways(config, invoke, steps, spanRef) {
      ReportRefers(config, invoke, steps, spanRef);
      DoneRefers(config, invoke, steps, spanRef);
    }
  }

  lemma ReportRefers(config: Config, invoke: InvokeEvent, steps: seq<Step>, spanRef: SpanRef)
    requires RefersAlways(config, invoke, steps, spanRef) && config.structuredLogs && config.logReport
    requires |steps| >= 2 && IsInitStart(steps[0]) && IsReport(steps[1])
    ensures spanRef.spanId == steps[0].randomId
  {
    InitThenReport(config, invoke, steps[..1]);
    RefersOne(config, invoke, steps, 1, spanRef);
  }

  lemma DoneRefers(config: Config, invoke: InvokeEvent, steps: seq<Step>, spanRef: SpanRef)
    requires RefersAlways(config, invoke, steps, spanRef) && config.structuredLogs && config.logRuntimeDone
    requires |steps| >= 4 && Never(steps[..3], IsSpans) && IsInitReport(steps[2]) && IsDone(steps[3])
    ensures spanRef.spanId == invoke.invocationSpanId
  {
    InitIsOver(config, invoke, steps[..3]);
    RefersOne(config, invoke, steps, 3, spanRef);
  }

  lemma RefersOne(config: Config, invoke: InvokeEvent, steps: seq<Step>, q: nat, spanRef: SpanRef)
    requires RefersAlways(config, invoke, steps, spanRef) && q < |steps|
    requires Speaks(config, steps[..q], steps[q])
    ensures RefAt(config, invoke, steps[..q], steps[q]) == spanRef
  {
    assert RefersAt(config, invoke, steps, q, spanRef);
  }

  lemma InitThenReport(config: Config, invoke: InvokeEvent, steps: seq<Step>)
    requires |steps| == 1 && IsInitStart(steps[0])
    ensures RefOf(config, invoke, steps).spanId == steps[0].randomId
  {
    assert steps[..0] == [] && SpansIn(steps) == [];
  }

  lemma InitIsOver(config: Config, invoke: InvokeEvent, steps: seq<Step>)
    requires |steps| == 3 && IsInitReport(steps[2]) && Never(steps, IsSpans)
    ensures RefOf(config, invoke, steps).spanId == invoke.invocationSpanId
  {
    NothingFrom(steps);
    assert !Never(steps, IsInitReport);
  }

  lemma {:induction false} NothingFrom(steps: seq<Step>)
    requires Never(steps, IsSpans)
    ensures SpansIn(steps) == []
  {
    if steps != [] {
      NothingFrom(steps[..|steps| - 1]);
      NeverInFront(steps, IsSpans);
    }
  }
}
