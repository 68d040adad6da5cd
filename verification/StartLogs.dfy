/** Which start events get their log, in terms of what arrives at an invocation
    (src/telemetry/processor/telemetry_processor.rs). */
module StartLogs {
  import opened Sequences
  import opened Telemetry
  import opened SpanCapture
  import opened InvocationProcessing
  import opened DelayedLogs
  import opened Correlation

  /** In OTel mode, neither the end of the runtime nor an early invocation span has arrived yet. */
  ghost predicate NothingReleases(config: Config, steps: seq<Step>) {
    config.tracingMode.OtelInstrumentation? && Never(steps, IsDone) && !Has(SpansIn(steps), CxEarlyInvocation)
  }

  /** The number of start events that arrive before anything releases delayed logs. */
  ghost function HeldStarts(config: Config, steps: seq<Step>): nat {
    if steps == [] then 0
    else
      var front := steps[..|steps| - 1];
      HeldStarts(config, front) + if NothingReleases(config, front) then |StartIn(Last(steps))| else 0
  }

  lemma {:induction false} HeldStartsAreDelayed(config: Config, invoke: InvokeEvent, steps: seq<Step>)
    requires config.structuredLogs
    ensures StartsDuringDelay(config, invoke, steps) == HeldStarts(config, steps)
  {
    if steps != [] {
      HeldStartsAreDelayed(config, invoke, steps[..|steps| - 1]);
      DelayedExactlyWhen(config, invoke, steps[..|steps| - 1]);
    }
  }

  /** The start logs that went out or wait are those of the start events that arrived, in order, except that of those
      that arrive before anything releases delayed logs only the last counts. */
  lemma StartLogsAccountedFor(config: Config, invoke: InvokeEvent, steps: seq<Step>)
    requires config.structuredLogs && config.logStart
    ensures var held := HeldStarts(config, steps);
            && held <= |StartsIn(steps)|
            && Starts(Emitted(config, invoke, steps)) + Pending(Run(config, invoke, steps).state)
               == StartsIn(steps)[if held == 0 then 0 else held - 1..]
  {
    StartsBalance(config, invoke, steps);
    HeldStartsAreDelayed(config, invoke, steps);
  }

  /** So every start log went out or waits exactly when at most one start event arrived before anything releases delayed
      logs. */
  lemma NoStartLogMissingExactlyWhen(config: Config, invoke: InvokeEvent, steps: seq<Step>)
    requires config.structuredLogs && config.logStart
    ensures Starts(Emitted(config, invoke, steps)) + Pending(Run(config, invoke, steps).state) == StartsIn(steps)
       <==> HeldStarts(config, steps) <= 1
  {
    StartLogsAccountedFor(config, invoke, steps);
    var held := HeldStarts(config, steps);
    assert held > 1 ==> |StartsIn(steps)[held - 1..]| < |StartsIn(steps)|;
  }

  lemma {:induction false} StartSeen(config: Config, invoke: InvokeEvent, steps: seq<Step>)
    ensures Run(config, invoke, steps).state.start.Some? <==> StartsIn(steps) != []
  {
    if steps != [] {
      var front := steps[..|steps| - 1];
      StartSeen(config, invoke, front);
      StepSeesStart(config, Run(config, invoke, front).state, Last(steps));
    }
  }

  lemma StepSeesStart(config: Config, s: InvocationState, step: Step)
    ensures NextState(config, s, step).start.Some? <==> s.start.Some? || StartIn(step) != []
  {
    if step.OnEvent? {
      match step.event.record
      case PlatformStart(_) =>
      case _ =>
    }
  }

  /** A start log waits exactly when a start event has arrived and nothing that releases delayed logs. */
  lemma WaitsExactlyWhen(config: Config, invoke: InvokeEvent, steps: seq<Step>)
    requires config.structuredLogs
    ensures Pending(Run(config, invoke, steps).state) != [] <==> NothingReleases(config, steps) && StartsIn(steps) != []
  {
    StartSeen(config, invoke, steps);
    DelayedExactlyWhen(config, invoke, steps);
  }

  /** Start events arrived and nothing that releases their logs, or two of them before anything that does. */
  ghost predicate LosesStart(config: Config, steps: seq<Step>) {
    || (NothingReleases(config, steps) && StartsIn(steps) != [])
    || HeldStarts(config, steps) > 1
  }

  /** Nothing releases a start log when the invocation is closed: a report does not. So the start logs of an invocation
      that is closed after these steps have all gone out exactly when it does not lose any in this sense. */
  lemma StartLogsOutExactlyWhen(config: Config, invoke: InvokeEvent, steps: seq<Step>)
    requires config.structuredLogs && config.logStart
    ensures Starts(Emitted(config, invoke, steps)) == StartsIn(steps) <==> !LosesStart(config, steps)
  {
    StartLogsAccountedFor(config, invoke, steps);
    WaitsExactlyWhen(config, invoke, steps);
    var out, pending := Starts(Emitted(config, invoke, steps)), Pending(Run(config, invoke, steps).state);
    assert |out + pending| == |out| + |pending|;
    assert out + [] == out;
  }

  /** A start event and a report, and the start log never goes out, although the invocation is closed. */
  lemma ReportDropsStart(config: Config, invoke: InvokeEvent, a: Event, b: Event, id: Bytes)
    requires config.structuredLogs && config.logStart && config.tracingMode.OtelInstrumentation?
    requires a.record.PlatformStart? && b.record.PlatformReport?
    ensures var steps := [OnEvent(a, id), OnEvent(b, id)];
            && Run(config, invoke, steps).state.reported && HeldStarts(config, steps) == 1
            && Starts(Emitted(config, invoke, steps)) == [] && StartsIn(steps) == StartIn(steps[0])
  {
    var steps := [OnEvent(a, id), OnEvent(b, id)];
    ReportedFlag(config, invoke, steps);
    assert IsReport(steps[1]);
    StartThenReport(config, steps);
    StartLogsAccountedFor(config, invoke, steps);
    WaitsExactlyWhen(config, invoke, steps);
    assert |Starts(Emitted(config, invoke, steps)) + Pending(Run(config, invoke, steps).state)| == 1;
  }

  lemma StartThenReport(config: Config, steps: seq<Step>)
    requires config.tracingMode.OtelInstrumentation? && |steps| == 2 && StartIn(steps[0]) != [] && IsReport(steps[1])
    ensures HeldStarts(config, steps) == 1 && StartsIn(steps) == StartIn(steps[0]) && NothingReleases(config, steps)
  {
    var first := steps[..1];
    assert first[..0] == [];
    assert StartsIn(first) == StartIn(first[0]) && StartsIn(steps) == StartsIn(first) + [];
    assert SpansIn(first) == [] && SpansIn(steps) == [] + [];
    assert HeldStarts(config, first) == 1;
  }

  /** Two start events at the beginning of an invocation, and the first one never gets its log. */
  lemma SecondStartReplacesFirst(config: Config, invoke: InvokeEvent, a: Event, b: Event, id: Bytes)
    requires config.structuredLogs && config.logStart && config.tracingMode.OtelInstrumentation?
    requires a.record.PlatformStart? && b.record.PlatformStart?
    ensures var steps := [OnEvent(a, id), OnEvent(b, id)];
            && Starts(Emitted(config, invoke, steps)) + Pending(Run(config, invoke, steps).state) == StartIn(steps[1])
            && StartsIn(steps) == StartIn(steps[0]) + StartIn(steps[1])
  {
    var first, steps := [OnEvent(a, id)], [OnEvent(a, id), OnEvent(b, id)];
    assert steps[..1] == first && first[..0] == [];
    assert StartsIn(first) == StartIn(first[0]);
    assert SpansIn(first) == [] && Never(first, IsDone);
    assert HeldStarts(config, first) == 1 && HeldStarts(config, steps) == 2;
    StartLogsAccountedFor(config, invoke, steps);
  }
}
