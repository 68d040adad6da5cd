/** Logs that wait for the invocation span are neither lost, duplicated nor reordered
    (src/telemetry/processor/telemetry_processor.rs). */
module DelayedLogs {
  import opened Sequences
  import opened Telemetry
  import opened InvocationProcessing

  function DraftsIn(logs: seq<LogRecord>): seq<Draft> {
    seq(|logs|, i requires 0 <= i < |logs| => logs[i].draft)
  }

  function Texts(ds: seq<Draft>): seq<RawLog> {
    if ds == [] then []
    else Texts(ds[..|ds| - 1]) + if Last(ds).body.FunctionText? then [RawLog(Last(ds).body.text, Last(ds).time)] else []
  }

  function Starts(ds: seq<Draft>): seq<Draft> {
    if ds == [] then [] else Starts(ds[..|ds| - 1]) + if Last(ds).body.StartBody? then [Last(ds)] else []
  }

  lemma {:induction false} ProjectionsAppend(a: seq<Draft>, b: seq<Draft>)
    ensures Texts(a + b) == Texts(a) + Texts(b) && Starts(a + b) == Starts(a) + Starts(b)
  {
    if b == [] {
      assert a + b == a;
    } else {
      assert (a + b)[..|a + b| - 1] == a + b[..|b| - 1];
      ProjectionsAppend(a, b[..|b| - 1]);
    }
  }

  lemma ProjectionsOne(d: Draft)
    ensures Texts([d]) == if d.body.FunctionText? then [RawLog(d.body.text, d.time)] else []
    ensures Starts([d]) == if d.body.StartBody? then [d] else []
  {
    assert [d][..0] == [];
  }

  lemma {:induction false} ProjectionsOfTexts(logs: seq<RawLog>)
    ensures Texts(TextDrafts(logs)) == logs && Starts(TextDrafts(logs)) == []
  {
    if logs != [] {
      assert TextDrafts(logs)[..|logs| - 1] == TextDrafts(logs[..|logs| - 1]);
      ProjectionsOfTexts(logs[..|logs| - 1]);
    }
  }

  // ---------------------------------------------------------------------------
  // What arrives.

  /** The function log in a step, unless it carries an Epsagon trace. */
  function TextIn(config: Config, step: Step): seq<RawLog> {
    if step.OnEvent? && step.event.record.FunctionLog? && config.epsagonTrace(step.event.record.text).None?
    then [RawLog(step.event.record.text, step.event.time)] else []
  }

  function TextsIn(config: Config, steps: seq<Step>): seq<RawLog> {
    if steps == [] then [] else TextsIn(config, steps[..|steps| - 1]) + TextIn(config, Last(steps))
  }

  /** What the steps put out one by one: an intermediate, which TracesDecode relates to the texts that arrive. */
  function TracesIn(config: Config, steps: seq<Step>): seq<string> {
    if steps == [] then [] else TracesIn(config, steps[..|steps| - 1]) + TracesOf(config, Last(steps))
  }

  function StartIn(step: Step): seq<Draft> {
    if step.OnEvent? && step.event.record.PlatformStart?
    then [Draft(StartBody(step.event.record.requestId), step.event.time)] else []
  }

  function StartsIn(steps: seq<Step>): seq<Draft> {
    if steps == [] then [] else StartsIn(steps[..|steps| - 1]) + StartIn(Last(steps))
  }

  /** The number of start events that are processed while logs are delayed. */
  function StartsDuringDelay(config: Config, invoke: InvokeEvent, steps: seq<Step>): nat {
    if steps == [] then 0
    else
      var front := steps[..|steps| - 1];
      StartsDuringDelay(config, invoke, front)
      + if Run(config, invoke, front).state.delayingLogs then |StartIn(Last(steps))| else 0
  }

  function Emitted(config: Config, invoke: InvokeEvent, steps: seq<Step>): seq<Draft> {
    DraftsIn(Run(config, invoke, steps).logs)
  }

  lemma EmittedNext(config: Config, invoke: InvokeEvent, steps: seq<Step>)
    requires steps != []
    ensures var r := Run(config, invoke, steps[..|steps| - 1]);
            Emitted(config, invoke, steps) == DraftsIn(r.logs) + DraftsOf(config, r.state, Last(steps))
  {
    var r := Run(config, invoke, steps[..|steps| - 1]);
    var ds, spanRef := DraftsOf(config, r.state, Last(steps)), Prepared(config, r.state, Last(steps)).CurrentSpanRef();
    DraftsAreStamped(r.state.lastLog, spanRef, ds);
    assert DraftsIn(r.logs + Stamp(r.state.lastLog, spanRef, ds)) == DraftsIn(r.logs) + ds;
  }

  lemma EmittedOne(config: Config, invoke: InvokeEvent, front: seq<Step>, step: Step)
    ensures Emitted(config, invoke, front + [step])
         == Emitted(config, invoke, front) + DraftsOf(config, Run(config, invoke, front).state, step)
  {
    assert (front + [step])[..|front|] == front;
    EmittedNext(config, invoke, front + [step]);
  }

  // ---------------------------------------------------------------------------
  // Function logs.

  lemma DelayedProjections(config: Config, s: InvocationState)
    requires s.start.Some? ==> s.start.value.body.StartBody?
    ensures Texts(DelayedDrafts(config, s)) == s.logs
    ensures Starts(DelayedDrafts(config, s)) == if s.start.Some? && config.logStart then [s.start.value] else []
  {
    if s.start.Some? && config.logStart {
      ProjectionsOne(s.start.value);
      HeldProjections([s.start.value], s.logs);
    } else {
      HeldProjections([], s.logs);
    }
  }

  lemma HeldProjections(first: seq<Draft>, logs: seq<RawLog>)
    requires Texts(first) == [] && Starts(first) == first
    ensures Texts(first + TextDrafts(logs)) == logs && Starts(first + TextDrafts(logs)) == first
  {
    ProjectionsAppend(first, TextDrafts(logs));
    ProjectionsOfTexts(logs);
    assert [] + logs == logs && first + [] == first;
  }

  ghost predicate WellFormed(config: Config, s: InvocationState) {
    && (s.start.Some? ==> s.start.value.body.StartBody?)
    && (!config.structuredLogs ==> s.logs == [])
    && (!s.delayingLogs ==> s.logs == [])
  }

  /** The start log that waits. */
  function Pending(s: InvocationState): seq<Draft> {
    if s.delayingLogs && s.start.Some? then [s.start.value] else []
  }

  /** Start logs to make, with that of the step: during the delay it replaces one that waits. */
  function PendingWith(s: InvocationState, step: Step): seq<Draft> {
    if s.delayingLogs && StartIn(step) != [] then StartIn(step) else Pending(s) + StartIn(step)
  }

  /** What a step that makes the given drafts does to the logs and the start event that wait. */
  ghost predicate Passes(config: Config, s: InvocationState, step: Step, ds: seq<Draft>, s': InvocationState) {
    && Texts(ds) + s'.logs == s.logs + TextIn(config, step)
    && (config.logStart ==> Starts(ds) + Pending(s') == PendingWith(s, step))
    && (s.delayingLogs && s'.delayingLogs ==> Starts(ds) == [])
    && (s'.delayingLogs ==> s.delayingLogs)
    && (StartIn(step) != [] ==> s'.delayingLogs == s.delayingLogs)
    && (s'.start.Some? <==> s.start.Some? || StartIn(step) != [])
  }

  lemma SpansPass(config: Config, s: InvocationState, rs: seq<ResourceSpans>)
    requires WellFormed(config, s) && config.structuredLogs
    ensures Passes(config, s, OnSpans(rs), DraftsOf(config, s, OnSpans(rs)), NextState(config, s, OnSpans(rs)))
  {
    var s1 := WithSpans(config, s, rs);
    assert Pending(s1) == Pending(s);
    if Releases(config, s1) {
      DelayedProjections(config, s1);
    }
  }

  lemma DoneProjections(config: Config, s: InvocationState, e: Event)
    requires e.record.PlatformRuntimeDone? && config.structuredLogs
    ensures Texts(RuntimeDoneDrafts(config, s, e)) == Texts(ReleasedDrafts(config, s))
    ensures Starts(RuntimeDoneDrafts(config, s, e)) == Starts(ReleasedDrafts(config, s))
  {
    var released := ReleasedDrafts(config, s);
    var done := Draft(RuntimeDoneBody(e.record.requestId, DoneOf(e), HandlerError(s)), e.time);
    ProjectionsOne(done);
    ProjectionsAppend(released, [done]);
    assert released + [] == released;
  }

  lemma DonePasses(config: Config, s: InvocationState, e: Event, id: Bytes)
    requires WellFormed(config, s) && config.structuredLogs && e.record.PlatformRuntimeDone?
    ensures Passes(config, s, OnEvent(e, id), DraftsOnEvent(config, s, e), AfterEvent(config, s, e, id))
  {
    DelayedProjections(config, s);
    DoneProjections(config, s, e);
  }

  lemma ReportProjections(config: Config, s: InvocationState, e: Event)
    requires e.record.PlatformReport? && config.structuredLogs
    ensures Texts(ReportDrafts(config, s, e)) == s.logs && Starts(ReportDrafts(config, s, e)) == []
  {
    var report := Draft(ReportBody(e.record.requestId), e.time);
    ProjectionsOfTexts(s.logs);
    ProjectionsOne(report);
    ProjectionsAppend(TextDrafts(s.logs), [report]);
    assert TextDrafts(s.logs) + [] == TextDrafts(s.logs);
  }

  lemma ReportPasses(config: Config, s: InvocationState, e: Event, id: Bytes)
    requires WellFormed(config, s) && config.structuredLogs && e.record.PlatformReport?
    ensures Passes(config, s, OnEvent(e, id), DraftsOnEvent(config, s, e), AfterEvent(config, s, e, id))
  {
    ReportProjections(config, s, e);
  }

  lemma TextPasses(config: Config, s: InvocationState, e: Event, id: Bytes)
    requires WellFormed(config, s) && config.structuredLogs && e.record.FunctionLog?
    ensures Passes(config, s, OnEvent(e, id), DraftsOnEvent(config, s, e), AfterEvent(config, s, e, id))
  {
    ProjectionsOne(Draft(FunctionText(e.record.text), e.time));
  }

  lemma StartPasses(config: Config, s: InvocationState, e: Event, id: Bytes)
    requires WellFormed(config, s) && config.structuredLogs && e.record.PlatformStart?
    ensures Passes(config, s, OnEvent(e, id), DraftsOnEvent(config, s, e), AfterEvent(config, s, e, id))
  {
    ProjectionsOne(Draft(StartBody(e.record.requestId), e.time));
  }

  predicate IsQuiet(e: Event) {
    match e.record
    case FunctionLog(_) => false
    case PlatformStart(_) => false
    case PlatformRuntimeDone(_, _, _) => false
    case PlatformReport(_) => false
    case _ => true
  }

  lemma QuietPasses(config: Config, s: InvocationState, e: Event, id: Bytes)
    requires WellFormed(config, s) && config.structuredLogs && IsQuiet(e)
    ensures Passes(config, s, OnEvent(e, id), DraftsOnEvent(config, s, e), AfterEvent(config, s, e, id))
    ensures WellFormed(config, AfterEvent(config, s, e, id))
  {}

  lemma StepPasses(config: Config, s: InvocationState, step: Step)
    requires WellFormed(config, s) && config.structuredLogs
    ensures Passes(config, s, step, DraftsOf(config, s, step), NextState(config, s, step))
    ensures WellFormed(config, NextState(config, s, step))
  {
    match step
    case OnSpans(rs) => SpansPass(config, s, rs);
    case OnEvent(e, id) =>
      match e.record {
        case FunctionLog(_) => TextPasses(config, s, e, id);
        case PlatformStart(_) => StartPasses(config, s, e, id);
        case PlatformRuntimeDone(_, _, _) => DonePasses(config, s, e, id);
        case PlatformReport(_) => ReportPasses(config, s, e, id);
        case _ => QuietPasses(config, s, e, id);
      }
  }

  lemma StepKeepsSilence(config: Config, s: InvocationState, step: Step)
    requires WellFormed(config, s) && !config.structuredLogs
    ensures WellFormed(config, NextState(config, s, step)) && DraftsOf(config, s, step) == []
  {}

  /** Every regular function log that arrived has gone out, or still waits: exactly once, and in order. None
      waits when logs are not delayed, nor right after a report. */
  lemma {:induction false} FunctionLogsConserved(config: Config, invoke: InvokeEvent, steps: seq<Step>)
    requires config.structuredLogs
    ensures Texts(Emitted(config, invoke, steps)) + Run(config, invoke, steps).state.logs == TextsIn(config, steps)
    ensures WellFormed(config, Run(config, invoke, steps).state)
    ensures steps != [] && IsReport(Last(steps)) ==> Run(config, invoke, steps).state.logs == []
  {
    if steps != [] {
      var front, step := steps[..|steps| - 1], Last(steps);
      var s := Run(config, invoke, front).state;
      FunctionLogsConserved(config, invoke, front);
      EmittedNext(config, invoke, steps);
      StepPasses(config, s, step);
      PassOn(Emitted(config, invoke, front), DraftsOf(config, s, step), NextState(config, s, step).logs, s.logs,
             TextIn(config, step));
    }
  }

  /** The regular function logs that arrived at an invocation after its last report. */
  function TextsAfterReport(config: Config, steps: seq<Step>): seq<RawLog> {
    if steps == [] || IsReport(Last(steps)) then []
    else TextsAfterReport(config, steps[..|steps| - 1]) + TextIn(config, Last(steps))
  }

  /** An invocation holds back exactly the function logs since its last report, while logs are delayed. */
  lemma {:induction false} HeldExactly(config: Config, invoke: InvokeEvent, steps: seq<Step>)
    requires config.structuredLogs
    ensures var s := Run(config, invoke, steps).state;
            s.logs == if s.delayingLogs then TextsAfterReport(config, steps) else []
  {
    if steps != [] {
      var front := steps[..|steps| - 1];
      HeldExactly(config, invoke, front);
      HeldNext(config, Run(config, invoke, front).state, Last(steps));
    }
  }

  lemma HeldNext(config: Config, s: InvocationState, step: Step)
    requires config.structuredLogs
    ensures var s' := NextState(config, s, step);
            && (s'.delayingLogs ==>
                  s.delayingLogs && s'.logs == if IsReport(step) then [] else s.logs + TextIn(config, step))
            && (!s'.delayingLogs && s.delayingLogs ==> s'.logs == [])
            && (!s.delayingLogs && s.logs == [] ==> s'.logs == [])
  {}

  /** Without structured logs nothing is logged, no trace goes out and nothing waits. */
  lemma {:induction false} SilentWhenOff(config: Config, invoke: InvokeEvent, steps: seq<Step>)
    requires !config.structuredLogs
    ensures Run(config, invoke, steps).logs == [] && WellFormed(config, Run(config, invoke, steps).state)
    ensures Run(config, invoke, steps).epsagonTraces == [] && TracesIn(config, steps) == []
  {
    if steps != [] {
      var front, step := steps[..|steps| - 1], Last(steps);
      SilentWhenOff(config, invoke, front);
      StepKeepsSilence(config, Run(config, invoke, front).state, step);
    }
  }

  /** The texts of all function logs that arrived. */
  function FunctionTexts(steps: seq<Step>): seq<string> {
    if steps == [] then []
    else
      var step := Last(steps);
      FunctionTexts(steps[..|steps| - 1])
      + if step.OnEvent? && step.event.record.FunctionLog? then [step.event.record.text] else []
  }

  /** The traces that texts carry. */
  function Decoded(texts: seq<string>, decode: string -> Option<string>): seq<string> {
    if texts == [] then []
    else
      Decoded(texts[..|texts| - 1], decode)
      + match decode(Last(texts)) case Some(trace) => [trace] case None => []
  }

  lemma DecodedNext(texts: seq<string>, text: string, decode: string -> Option<string>)
    ensures Decoded(texts + [text], decode)
         == Decoded(texts, decode) + match decode(text) case Some(trace) => [trace] case None => []
  {
    assert (texts + [text])[..|texts|] == texts;
  }

  lemma {:induction false} TracesDecode(config: Config, steps: seq<Step>)
    requires config.structuredLogs
    ensures TracesIn(config, steps) == Decoded(FunctionTexts(steps), config.epsagonTrace)
    ensures |TracesIn(config, steps)| + |TextsIn(config, steps)| == |FunctionTexts(steps)|
  {
    if steps != [] {
      var front, step := steps[..|steps| - 1], Last(steps);
      TracesDecode(config, front);
      if step.OnEvent? && step.event.record.FunctionLog? {
        DecodedNext(FunctionTexts(front), step.event.record.text, config.epsagonTrace);
      } else {
        assert TracesIn(config, steps) == TracesIn(config, front);
        assert FunctionTexts(steps) == FunctionTexts(front);
      }
    }
  }

  lemma {:induction false} TracesAccumulate(config: Config, invoke: InvokeEvent, steps: seq<Step>)
    ensures Run(config, invoke, steps).epsagonTraces == TracesIn(config, steps)
  {
    if steps != [] {
      TracesAccumulate(config, invoke, steps[..|steps| - 1]);
    }
  }

  /** The Epsagon traces that went out are exactly those that the function logs carried, in order; and every function
      log went one way: out as a trace, out as a log, or into the logs that wait. */
  lemma TracesGoOut(config: Config, invoke: InvokeEvent, steps: seq<Step>)
    requires config.structuredLogs
    ensures var r := Run(config, invoke, steps);
            && r.epsagonTraces == Decoded(FunctionTexts(steps), config.epsagonTrace)
            && |r.epsagonTraces| + |Texts(Emitted(config, invoke, steps))| + |r.state.logs| == |FunctionTexts(steps)|
  {
    TracesAccumulate(config, invoke, steps);
    TracesDecode(config, steps);
    FunctionLogsConserved(config, invoke, steps);
    assert |TextsIn(config, steps)| == |Texts(Emitted(config, invoke, steps)) + Run(config, invoke, steps).state.logs|;
  }

  lemma PassOn(before: seq<Draft>, ds: seq<Draft>, after: seq<RawLog>, waiting: seq<RawLog>, arrived: seq<RawLog>)
    requires Texts(ds) + after == waiting + arrived
    ensures Texts(before + ds) + after == Texts(before) + waiting + arrived
  {
    ProjectionsAppend(before, ds);
    assert Texts(before) + Texts(ds) + after == Texts(before) + (Texts(ds) + after);
  }

  // ---------------------------------------------------------------------------
  // Start logs.

  /** The start logs that went out or wait are those of the start events that arrived, but for those that
      were replaced while logs were delayed. */
  ghost predicate Accounted(emitted: seq<Draft>, pending: seq<Draft>, held: nat, arrived: seq<Draft>, delaying: bool) {
    && held <= |arrived|
    && emitted + pending == arrived[if held == 0 then 0 else held - 1..]
    && (delaying ==> held == |arrived| && emitted == [])
  }

  lemma AccountedNext(emitted: seq<Draft>, pending: seq<Draft>, held: nat, arrived: seq<Draft>, delaying: bool,
                      out: seq<Draft>, pending': seq<Draft>, start: seq<Draft>, delaying': bool)
    requires Accounted(emitted, pending, held, arrived, delaying) && |start| <= 1
    requires out + pending' == if delaying && start != [] then start else pending + start
    requires delaying && delaying' ==> out == []
    requires delaying' ==> delaying
    requires start != [] ==> delaying' == delaying
    ensures Accounted(emitted + out, pending', held + if delaying then |start| else 0, arrived + start, delaying')
  {
    Associative(emitted, out, pending');
    if delaying && start != [] {
      assert (arrived + start)[|arrived|..] == start;
    } else {
      var k := if held == 0 then 0 else held - 1;
      assert (arrived + start)[k..] == arrived[k..] + start;
      Associative(emitted, pending, start);
    }
  }

  /** While logs are delayed, a start event replaces the one before it; all others get their log, exactly once
      and in order. */
  lemma {:induction false} StartsBalance(config: Config, invoke: InvokeEvent, steps: seq<Step>)
    requires config.structuredLogs && config.logStart
    ensures var s := Run(config, invoke, steps).state;
            Accounted(Starts(Emitted(config, invoke, steps)), Pending(s), StartsDuringDelay(config, invoke, steps),
                      StartsIn(steps), s.delayingLogs)
  {
    if steps != [] {
      var front, step := steps[..|steps| - 1], Last(steps);
      StartsBalance(config, invoke, front);
      FunctionLogsConserved(config, invoke, front);
      StartsOneMore(config, invoke, steps);
      NextAccounted(config, Run(config, invoke, front).state, Emitted(config, invoke, front),
                    StartsDuringDelay(config, invoke, front), StartsIn(front), step);
    }
  }

  lemma StartsOneMore(config: Config, invoke: InvokeEvent, steps: seq<Step>)
    requires steps != []
    ensures var front, step := steps[..|steps| - 1], Last(steps);
            var s, s' := Run(config, invoke, front).state, Run(config, invoke, steps).state;
            && Emitted(config, invoke, steps) == Emitted(config, invoke, front) + DraftsOf(config, s, step)
            && StartsIn(steps) == StartsIn(front) + StartIn(step)
            && StartsDuringDelay(config, invoke, steps)
               == StartsDuringDelay(config, invoke, front) + (if s.delayingLogs then |StartIn(step)| else 0)
            && s'.delayingLogs == NextState(config, s, step).delayingLogs
            && Pending(s') == Pending(NextState(config, s, step))
  {
    EmittedNext(config, invoke, steps);
  }

  lemma NextAccounted(config: Config, s: InvocationState, emitted: seq<Draft>, held: nat, arrived: seq<Draft>,
                      step: Step)
    requires config.structuredLogs && config.logStart && WellFormed(config, s)
    requires Accounted(Starts(emitted), Pending(s), held, arrived, s.delayingLogs)
    ensures Accounted(Starts(emitted + DraftsOf(config, s, step)), Pending(NextState(config, s, step)),
                      held + if s.delayingLogs then |StartIn(step)| else 0,
                      arrived + StartIn(step), NextState(config, s, step).delayingLogs)
  {
    var ds, s' := DraftsOf(config, s, step), NextState(config, s, step);
    StepPasses(config, s, step);
    ProjectionsAppend(emitted, ds);
    AccountedNext(Starts(emitted), Pending(s), held, arrived, s.delayingLogs, Starts(ds), Pending(s'), StartIn(step),
                  s'.delayingLogs);
  }

  /** No start log goes out when there is not to be one. */
  lemma {:induction false} NoStartLogs(config: Config, invoke: InvokeEvent, steps: seq<Step>)
    requires !config.structuredLogs || !config.logStart
    ensures Starts(DraftsIn(Run(config, invoke, steps).logs)) == []
  {
    if steps != [] {
      var front, step := steps[..|steps| - 1], Last(steps);
      var s := Run(config, invoke, front).state;
      NoStartLogs(config, invoke, front);
      EmittedNext(config, invoke, steps);
      ProjectionsAppend(DraftsIn(Run(config, invoke, front).logs), DraftsOf(config, s, step));
      StepStartsNothing(config, s, step);
    }
  }

  lemma StepStartsNothing(config: Config, s: InvocationState, step: Step)
    requires !config.structuredLogs || !config.logStart
    ensures Starts(DraftsOf(config, s, step)) == []
  {
    var ds := DraftsOf(config, s, step);
    NoneOfThem(ds);
  }

  lemma {:induction false} NoneOfThem(ds: seq<Draft>)
    requires forall i :: 0 <= i < |ds| ==> !ds[i].body.StartBody?
    ensures Starts(ds) == []
  {
    if ds != [] {
      NoneOfThem(ds[..|ds| - 1]);
    }
  }

  // ---------------------------------------------------------------------------
  // When the delay ends.

  lemma StepDelays(config: Config, s: InvocationState, step: Step)
    requires NextState(config, s, step).delayingLogs
    ensures s.delayingLogs && (config.structuredLogs ==> !IsDone(step))
  {}

  /** The end of the runtime is the end of the delay. */
  lemma {:induction false} DoneEndsDelay(config: Config, invoke: InvokeEvent, steps: seq<Step>, i: nat)
    requires config.structuredLogs && i < |steps| && IsDone(steps[i])
    ensures !Run(config, invoke, steps).state.delayingLogs
  {
    if Run(config, invoke, steps).state.delayingLogs {
      var front := steps[..|steps| - 1];
      StepDelays(config, Run(config, invoke, front).state, Last(steps));
      DoneEndsDelay(config, invoke, front, i);
    }
  }

  /** A single start event gets exactly one start log once the runtime is done, if there are to be start logs. */
  lemma OneStartLog(config: Config, invoke: InvokeEvent, steps: seq<Step>, i: nat)
    requires config.structuredLogs && config.logStart
    requires |StartsIn(steps)| == 1 && i < |steps| && IsDone(steps[i])
    ensures Starts(Emitted(config, invoke, steps)) == StartsIn(steps)
  {
    StartsBalance(config, invoke, steps);
    DoneEndsDelay(config, invoke, steps, i);
  }

  lemma {:induction false} SilentWhileDelayed(config: Config, invoke: InvokeEvent, steps: seq<Step>)
    requires Run(config, invoke, steps).state.delayingLogs && Never(steps, IsReport)
    ensures Run(config, invoke, steps).logs == []
  {
    if steps != [] {
      var front := steps[..|steps| - 1];
      var s := Run(config, invoke, front).state;
      StillDelayed(config, s, Last(steps));
      SilentWhileDelayed(config, invoke, front);
      assert DraftsOf(config, s, Last(steps)) == [];
    }
  }

  lemma StillDelayed(config: Config, s: InvocationState, step: Step)
    requires NextState(config, s, step).delayingLogs && !IsReport(step)
    ensures s.delayingLogs && DraftsOf(config, s, step) == []
  {}

  /** The log of the end of the runtime, if this is it. */
  function DoneDraft(config: Config, s: InvocationState, step: Step): seq<Draft> {
    if IsDone(step) && config.logRuntimeDone
    then [Draft(RuntimeDoneBody(step.event.record.requestId, DoneOf(step.event), HandlerError(s)), step.event.time)]
    else []
  }

  lemma ReleaseDrafts(config: Config, s: InvocationState, step: Step)
    requires s.delayingLogs && !NextState(config, s, step).delayingLogs
    ensures config.structuredLogs && DraftsOf(config, s, step) == DelayedDrafts(config, s) + DoneDraft(config, s, step)
  {}

  /** What waits: the start log of the last start event, and all the function logs so far. */
  lemma HeldLogs(config: Config, invoke: InvokeEvent, steps: seq<Step>)
    requires config.structuredLogs && Never(steps, IsReport)
    requires Run(config, invoke, steps).state.delayingLogs
    ensures Emitted(config, invoke, steps) == []
    ensures DelayedDrafts(config, Run(config, invoke, steps).state)
         == (if config.logStart && StartsIn(steps) != [] then [Last(StartsIn(steps))] else [])
            + TextDrafts(TextsIn(config, steps))
  {
    var r := Run(config, invoke, steps);
    SilentWhileDelayed(config, invoke, steps);
    FunctionLogsConserved(config, invoke, steps);
    assert DraftsIn(r.logs) == [] && r.state.logs == TextsIn(config, steps);
    if config.logStart {
      StartsBalance(config, invoke, steps);
      assert Pending(r.state) == StartsIn(steps)[if StartsIn(steps) == [] then 0 else |StartsIn(steps)| - 1..];
    }
  }

  /** The step that ends the delay puts out what waits and, if it is the end of the runtime, the log of that;
      and these are the first logs of all. */
  lemma FirstLogs(config: Config, invoke: InvokeEvent, front: seq<Step>, step: Step)
    requires Never(front, IsReport) && Run(config, invoke, front).state.delayingLogs
    requires !NextState(config, Run(config, invoke, front).state, step).delayingLogs
    ensures Emitted(config, invoke, front + [step])
         == (if config.logStart && StartsIn(front) != [] then [Last(StartsIn(front))] else [])
            + TextDrafts(TextsIn(config, front))
            + DoneDraft(config, Run(config, invoke, front).state, step)
  {
    var s := Run(config, invoke, front).state;
    ReleaseDrafts(config, s, step);
    HeldLogs(config, invoke, front);
    EmittedOne(config, invoke, front, step);
    assert [] + DraftsOf(config, s, step) == DraftsOf(config, s, step);
  }
}
