/** The logs of the end of the runtime and of the invocation, and the failure that they tell
    (src/telemetry/processor/telemetry_processor.rs). */
module ClosingLogs {
  import opened Sequences
  import opened Telemetry
  import opened SpanCapture
  import opened InvocationProcessing
  import opened DelayedLogs
  import opened Correlation
  import opened References

  predicate IsClosing(d: Draft) {
    d.body.RuntimeDoneBody? || d.body.ReportBody?
  }

  /** The logs of the end of the runtime and of the invocation among these, in order. */
  function Closings(ds: seq<Draft>): seq<Draft> {
    if ds == [] then [] else Closings(ds[..|ds| - 1]) + if IsClosing(Last(ds)) then [Last(ds)] else []
  }

  /** A step whose event is to be logged as an end. */
  predicate Closes(config: Config, step: Step) {
    step.OnEvent? && match step.event.record
      case PlatformRuntimeDone(_, _, _) => config.logRuntimeDone
      case PlatformReport(_) => config.logReport
      case _ => false
  }

  function ClosesAt(config: Config, steps: seq<Step>): (at: seq<nat>)
    ensures forall j :: 0 <= j < |at| ==> at[j] < |steps|
    ensures forall j, k :: 0 <= j < k < |at| ==> at[j] < at[k]
    ensures forall i: nat :: i in at <==> i < |steps| && Closes(config, steps[i])
  {
    if steps == [] then []
    else
      var n := |steps| - 1;
      ClosesAt(config, steps[..n]) + if Closes(config, steps[n]) then [n] else []
  }

  /** The log of the end that the step tells of, after the given steps. */
  ghost predicate IsClosingOf(config: Config, steps: seq<Step>, step: Step, d: Draft) {
    step.OnEvent? && d.time == step.event.time && match step.event.record
      case PlatformRuntimeDone(id, status, errorType) =>
        && d.body.RuntimeDoneBody?
        && d.body.requestId == id
        && d.body.done == RuntimeDone(step.event.time, status, errorType)
        && Tells(InvocationSpanOf(config, steps), d.body.handlerError)
      case PlatformReport(id) => d.body == ReportBody(id)
      case _ => false
  }

  /** One log for each of the steps at the given positions, in order. */
  ghost predicate OnePerStep(config: Config, steps: seq<Step>, at: seq<nat>, ds: seq<Draft>) {
    && |ds| == |at|
    && forall j :: 0 <= j < |at| ==> at[j] < |steps| && IsClosingOf(config, steps[..at[j]], steps[at[j]], ds[j])
  }

  lemma {:induction false} ClosingsAppend(a: seq<Draft>, b: seq<Draft>)
    ensures Closings(a + b) == Closings(a) + Closings(b)
  {
    if b == [] {
      assert a + b == a;
    } else {
      assert (a + b)[..|a + b| - 1] == a + b[..|b| - 1];
      ClosingsAppend(a, b[..|b| - 1]);
      Associative(Closings(a), Closings(b[..|b| - 1]), if IsClosing(Last(b)) then [Last(b)] else []);
    }
  }

  lemma ClosingsOne(d: Draft)
    ensures Closings([d]) == if IsClosing(d) then [d] else []
  {
    assert [d][..0] == [];
  }

  lemma {:induction false} NoClosings(ds: seq<Draft>)
    requires forall i :: 0 <= i < |ds| ==> !IsClosing(ds[i])
    ensures Closings(ds) == []
  {
    if ds != [] {
      NoClosings(ds[..|ds| - 1]);
    }
  }

  /** What a step puts out ends with at most one log of an end. */
  lemma ClosesWith(ds: seq<Draft>, d: Draft)
    requires forall i :: 0 <= i < |ds| ==> !IsClosing(ds[i])
    requires IsClosing(d)
    ensures Closings(ds + [d]) == [d] && Closings(ds) == []
  {
    NoClosings(ds);
    ClosingsOne(d);
    ClosingsAppend(ds, [d]);
    assert [] + [d] == [d];
  }

  /** The invocation span of a run is the one that what has arrived gives. */
  lemma InvocationSpanOfRun(config: Config, invoke: InvokeEvent, steps: seq<Step>)
    ensures Run(config, invoke, steps).state.tracing.InvocationSpan() == InvocationSpanOf(config, steps)
  {
    SlotOfRun(config, invoke, steps, CxInvocation);
    SlotOfRun(config, invoke, steps, CxEarlyInvocation);
    SlotOfRun(config, invoke, steps, GenericInvocation);
  }

  /** The closing logs of a step are at most the one it is to have. */
  ghost predicate ClosesRight(config: Config, steps: seq<Step>, step: Step, ds: seq<Draft>) {
    if Closes(config, step) then |ds| == 1 && IsClosingOf(config, steps, step, ds[0]) else ds == []
  }

  /** The log of the end of the runtime is right if the state has the right invocation span. */
  lemma DoneLogIsRight(config: Config, s: InvocationState, steps: seq<Step>, step: Step)
    requires IsDone(step) && s.tracing.InvocationSpan() == InvocationSpanOf(config, steps)
    ensures var e := step.event;
            IsClosingOf(config, steps, step,
                        Draft(RuntimeDoneBody(e.record.requestId, DoneOf(e), HandlerError(s)), e.time))
  {}

  lemma DoneCloses(config: Config, s: InvocationState, steps: seq<Step>, step: Step)
    requires config.structuredLogs && IsDone(step) && WellFormed(config, s)
    requires s.tracing.InvocationSpan() == InvocationSpanOf(config, steps)
    ensures ClosesRight(config, steps, step, Closings(DraftsOf(config, s, step)))
  {
    var e := step.event;
    DoneLogIsRight(config, s, steps, step);
    ClosesWith(ReleasedDrafts(config, s),
               Draft(RuntimeDoneBody(e.record.requestId, DoneOf(e), HandlerError(s)), e.time));
    assert ReleasedDrafts(config, s) + [] == ReleasedDrafts(config, s);
  }

  lemma ReportCloses(config: Config, s: InvocationState, steps: seq<Step>, step: Step)
    requires config.structuredLogs && IsReport(step)
    ensures ClosesRight(config, steps, step, Closings(DraftsOf(config, s, step)))
  {
    var e := step.event;
    ClosesWith(TextDrafts(s.logs), Draft(ReportBody(e.record.requestId), e.time));
    assert TextDrafts(s.logs) + [] == TextDrafts(s.logs);
  }

  lemma OthersClose(config: Config, s: InvocationState, steps: seq<Step>, step: Step)
    requires !IsDone(step) && !IsReport(step) && WellFormed(config, s)
    ensures ClosesRight(config, steps, step, Closings(DraftsOf(config, s, step)))
  {
    NoClosings(DraftsOf(config, s, step));
  }

  lemma StepCloses(config: Config, s: InvocationState, steps: seq<Step>, step: Step)
    requires config.structuredLogs && WellFormed(config, s)
    requires s.tracing.InvocationSpan() == InvocationSpanOf(config, steps)
    ensures ClosesRight(config, steps, step, Closings(DraftsOf(config, s, step)))
  {
    if IsDone(step) {
      DoneCloses(config, s, steps, step);
    } else if IsReport(step) {
      ReportCloses(config, s, steps, step);
    } else {
      OthersClose(config, s, steps, step);
    }
  }

  lemma OnePerStepNext(config: Config, front: seq<Step>, step: Step, ds: seq<Draft>, more: seq<Draft>)
    requires OnePerStep(config, front, ClosesAt(config, front), ds) && ClosesRight(config, front, step, more)
    ensures OnePerStep(config, front + [step], ClosesAt(config, front + [step]), ds + more)
  {
    var steps, before := front + [step], ClosesAt(config, front);
    assert steps[..|front|] == front;
    OnePerStepStays(config, front, step, before, ds);
    if Closes(config, step) {
      OnePerStepAdd(config, steps, before, ds, more[0]);
      assert more == [more[0]];
    } else {
      assert ds + more == ds && before + [] == before;
    }
  }

  lemma OnePerStepStays(config: Config, front: seq<Step>, step: Step, at: seq<nat>, ds: seq<Draft>)
    requires OnePerStep(config, front, at, ds)
    ensures OnePerStep(config, front + [step], at, ds)
  {
    var steps := front + [step];
    forall j | 0 <= j < |at| ensures IsClosingOf(config, steps[..at[j]], steps[at[j]], ds[j]) {
      assert steps[..at[j]] == front[..at[j]];
    }
  }

  lemma OnePerStepAdd(config: Config, steps: seq<Step>, at: seq<nat>, ds: seq<Draft>, d: Draft)
    requires OnePerStep(config, steps, at, ds) && steps != []
    requires IsClosingOf(config, steps[..|steps| - 1], Last(steps), d)
    ensures OnePerStep(config, steps, at + [|steps| - 1], ds + [d])
  {}

  /** The end of the runtime and of the invocation are logged once per event, in order, as far as they are to be. The
      log of the end of the runtime tells the message of the invocation span among the spans that arrived by then, if
      and only if that span failed. */
  lemma {:induction false} ClosingLogsPerEvent(config: Config, invoke: InvokeEvent, steps: seq<Step>)
    requires config.structuredLogs
    ensures OnePerStep(config, steps, ClosesAt(config, steps), Closings(Emitted(config, invoke, steps)))
  {
    if steps != [] {
      var front, step := steps[..|steps| - 1], Last(steps);
      assert steps == front + [step];
      ClosingLogsPerEvent(config, invoke, front);
      var s := Run(config, invoke, front).state;
      var ds := DraftsOf(config, s, step);
      FunctionLogsConserved(config, invoke, front);
      InvocationSpanOfRun(config, invoke, front);
      StepCloses(config, s, front, step);
      OnePerStepNext(config, front, step, Closings(Emitted(config, invoke, front)), Closings(ds));
      EmittedOne(config, invoke, front, step);
      ClosingsAppend(Emitted(config, invoke, front), ds);
    }
  }
}
