/** Processing of the events and spans of one invocation: how its state changes and what it puts out
    (src/telemetry/processor/telemetry_processor.rs, src/telemetry/mod.rs). */
module InvocationProcessing {
  import opened Sequences
  import opened Telemetry
  import opened SpanCapture
  import opened LogTimestamps

  datatype TracingMode = Disabled | TelemetryApi | OtelInstrumentation

  /** The part of the configuration that decides what happens; `epsagonTrace` decodes a function log that
      carries an Epsagon trace. */
  datatype Config = Config(structuredLogs: bool, logStart: bool, logRuntimeDone: bool, logReport: bool,
                           tracingMode: TracingMode, sampleAll: bool,
                           excludes: string -> bool, epsagonTrace: string -> Option<string>)

  datatype SpanRef = SpanRef(traceId: Bytes, spanId: Bytes)

  datatype RawLog = RawLog(text: string, time: int)

  /** A runtime-done log tells the message of a failed invocation span. */
  datatype LogBody =
    | FunctionText(text: string)
    | StartBody(requestId: string)
    | RuntimeDoneBody(requestId: string, done: RuntimeDone, handlerError: Option<string>)
    | ReportBody(requestId: string)

  /** What a log is about, and when that happened. */
  datatype Draft = Draft(body: LogBody, time: int)

  datatype LogRecord = LogRecord(draft: Draft, timestamp: nat, spanRef: SpanRef)

  datatype InvocationState = InvocationState(
    invoke: InvokeEvent,
    initSpanId: Option<Bytes>,
    initStarted: bool,
    initReported: bool,
    start: Option<Draft>,
    runtimeDone: Option<RuntimeDone>,
    reported: bool,
    delayingLogs: bool,
    logs: seq<RawLog>,
    tracing: TracingState,
    lastLog: LogClock)
  {
    /** Init has started and is not over yet. */
    predicate InInit() {
      initStarted && !initReported
    }

    function CurrentTraceId(): Bytes {
      match tracing.InvocationSpan()
      case Some(span) => span.traceId
      case None => invoke.traceId
    }

    function CurrentSpanId(): Bytes {
      if InInit() then
        if initSpanId.Some? then initSpanId.value else invoke.invocationSpanId
      else
        match tracing.InvocationSpan()
        case Some(span) => span.spanId
        case None => invoke.invocationSpanId
    }

    function CurrentSpanRef(): SpanRef {
      SpanRef(CurrentTraceId(), CurrentSpanId())
    }
  }

  function NewInvocation(config: Config, invoke: InvokeEvent): InvocationState {
    InvocationState(invoke, None, false, false, None, None, false, config.tracingMode.OtelInstrumentation?, [],
                    NewTracingState(config.sampleAll || invoke.sampled), EPOCH)
  }

  // ---------------------------------------------------------------------------
  // One step: a telemetry event, with an id for the case that one has to be made up, or a batch of spans.

  datatype Step = OnEvent(event: Event, randomId: Bytes) | OnSpans(spans: seq<ResourceSpans>)

  function TextDrafts(logs: seq<RawLog>): seq<Draft> {
    seq(|logs|, i requires 0 <= i < |logs| => Draft(FunctionText(logs[i].text), logs[i].time))
  }

  /** `process_delayed_logs`: the start log, then the function logs. */
  function HeldDrafts(config: Config, start: Option<Draft>, logs: seq<RawLog>): seq<Draft> {
    (if start.Some? && config.logStart then [start.value] else []) + TextDrafts(logs)
  }

  function DelayedDrafts(config: Config, s: InvocationState): seq<Draft> {
    HeldDrafts(config, s.start, s.logs)
  }

  function ReleasedDrafts(config: Config, s: InvocationState): seq<Draft> {
    if s.delayingLogs then DelayedDrafts(config, s) else []
  }

  /** The message of an invocation span that failed. */
  function ErrorOf(span: Option<Span>): Option<string> {
    match span
    case None => None
    case Some(span) =>
      if span.status.Some? && span.status.value.code == ErrorCode then Some(span.status.value.message) else None
  }

  function HandlerError(s: InvocationState): Option<string> {
    ErrorOf(s.tracing.InvocationSpan())
  }

  function DoneOf(e: Event): RuntimeDone
    requires e.record.PlatformRuntimeDone?
  {
    RuntimeDone(e.time, e.record.status, e.record.errorType)
  }

  /** The logs of the end of the runtime, which is also the end of the delay. */
  function RuntimeDoneDrafts(config: Config, s: InvocationState, e: Event): seq<Draft>
    requires e.record.PlatformRuntimeDone?
  {
    if !config.structuredLogs then []
    else
      ReleasedDrafts(config, s)
      + if config.logRuntimeDone
        then [Draft(RuntimeDoneBody(e.record.requestId, DoneOf(e), HandlerError(s)), e.time)]
        else []
  }

  /** The logs of the final report, after any that were made since the runtime was done. */
  function ReportDrafts(config: Config, s: InvocationState, e: Event): seq<Draft>
    requires e.record.PlatformReport?
  {
    if !config.structuredLogs then []
    else TextDrafts(s.logs) + if config.logReport then [Draft(ReportBody(e.record.requestId), e.time)] else []
  }

  function DraftsOnEvent(config: Config, s: InvocationState, e: Event): seq<Draft> {
    if !config.structuredLogs then []
    else
      match e.record
      case FunctionLog(text) =>
        if config.epsagonTrace(text).Some? || s.delayingLogs then [] else [Draft(FunctionText(text), e.time)]
      case PlatformStart(id) =>
        if config.logStart && !s.delayingLogs then [Draft(StartBody(id), e.time)] else []
      case PlatformRuntimeDone(_, _, _) => RuntimeDoneDrafts(config, s, e)
      case PlatformReport(_) => ReportDrafts(config, s, e)
      case _ => []
  }

  /** All but the clock of the logs. */
  function AfterEvent(config: Config, s: InvocationState, e: Event, randomId: Bytes): InvocationState {
    match e.record
    case FunctionLog(text) =>
      if config.structuredLogs && config.epsagonTrace(text).None? && s.delayingLogs
      then s.(logs := s.logs + [RawLog(text, e.time)]) else s
    case PlatformInitStart => s.(initSpanId := Some(randomId), initStarted := true)
    case PlatformInitReport => s.(initReported := true)
    case PlatformStart(id) => s.(start := Some(Draft(StartBody(id), e.time)))
    case PlatformRuntimeDone(_, _, _) =>
      s.(runtimeDone := Some(DoneOf(e)),
         logs := if config.structuredLogs && s.delayingLogs then [] else s.logs,
         delayingLogs := s.delayingLogs && !config.structuredLogs)
    case PlatformReport(_) =>
      s.(reported := true, logs := if config.structuredLogs then [] else s.logs)
    case _ => s
  }

  /** Function spans are passed on at all. */
  predicate ProducesSpans(config: Config, s: InvocationState) {
    s.tracing.shouldProduceSpans && config.tracingMode.OtelInstrumentation?
  }

  function WithSpans(config: Config, s: InvocationState, rs: seq<ResourceSpans>): InvocationState {
    s.(tracing := AfterSpans(s.tracing, rs, config.excludes))
  }

  /** An early invocation span makes waiting for the invocation span pointless. */
  predicate Releases(config: Config, s: InvocationState) {
    config.structuredLogs && s.delayingLogs && s.tracing.cxEarlyInvocation.Some?
  }

  function EarlyDrafts(config: Config, s: InvocationState): seq<Draft> {
    if Releases(config, s) then DelayedDrafts(config, s) else []
  }

  /** The state in which the logs of a step are made. */
  function Prepared(config: Config, s: InvocationState, step: Step): InvocationState {
    match step
    case OnEvent(_, _) => s
    case OnSpans(rs) => WithSpans(config, s, rs)
  }

  function DraftsOf(config: Config, s: InvocationState, step: Step): seq<Draft> {
    match step
    case OnEvent(e, _) => DraftsOnEvent(config, s, e)
    case OnSpans(rs) => EarlyDrafts(config, WithSpans(config, s, rs))
  }

  function NextState(config: Config, s: InvocationState, step: Step): InvocationState {
    match step
    case OnEvent(e, id) => AfterEvent(config, s, e, id)
    case OnSpans(rs) =>
      var s1 := WithSpans(config, s, rs);
      if Releases(config, s1) then s1.(delayingLogs := false, logs := []) else s1
  }

  function SpansOf(config: Config, s: InvocationState, step: Step): seq<Scoped> {
    if !ProducesSpans(config, s) then []
    else
      match step
      case OnEvent(e, _) => if e.record.PlatformRuntimeDone? then SpecialSpans(s.tracing, DoneOf(e)) else []
      case OnSpans(rs) => ForwardAll(s.tracing, AllSpans(rs), config.excludes)
  }

  function TracesOf(config: Config, step: Step): seq<string> {
    match step
    case OnEvent(e, _) =>
      if config.structuredLogs && e.record.FunctionLog? && config.epsagonTrace(e.record.text).Some?
      then [config.epsagonTrace(e.record.text).value] else []
    case OnSpans(_) => []
  }

  // Logs are stamped in the order in which they are made.

  function ClockAfterDrafts(c: LogClock, ds: seq<Draft>): LogClock {
    if ds == [] then c else NextClock(ClockAfterDrafts(c, ds[..|ds| - 1]), Last(ds).time)
  }

  function Stamp(c: LogClock, spanRef: SpanRef, ds: seq<Draft>): seq<LogRecord> {
    if ds == [] then []
    else
      var front := ds[..|ds| - 1];
      Stamp(c, spanRef, front)
      + [LogRecord(Last(ds), MakeLogTimestamp(ClockAfterDrafts(c, front), Last(ds).time), spanRef)]
  }

  /** What a step, or several, put out, and the state that they leave. */
  datatype Effect = Effect(state: InvocationState, logs: seq<LogRecord>, spans: seq<Scoped>, epsagonTraces: seq<string>)

  function DoStep(config: Config, s: InvocationState, step: Step): Effect {
    var ds := DraftsOf(config, s, step);
    Effect(NextState(config, s, step).(lastLog := ClockAfterDrafts(s.lastLog, ds)),
           Stamp(s.lastLog, Prepared(config, s, step).CurrentSpanRef(), ds),
           SpansOf(config, s, step),
           TracesOf(config, step))
  }

  function Run(config: Config, invoke: InvokeEvent, steps: seq<Step>): Effect {
    if steps == [] then Effect(NewInvocation(config, invoke), [], [], [])
    else
      var r := Run(config, invoke, steps[..|steps| - 1]);
      var e := DoStep(config, r.state, Last(steps));
      Effect(e.state, r.logs + e.logs, r.spans + e.spans, r.epsagonTraces + e.epsagonTraces)
  }

  /** All the spans of some steps. */
  function SpansIn(steps: seq<Step>): seq<Scoped> {
    if steps == [] then []
    else SpansIn(steps[..|steps| - 1]) + if Last(steps).OnSpans? then AllSpans(Last(steps).spans) else []
  }

  predicate IsDone(step: Step) {
    step.OnEvent? && step.event.record.PlatformRuntimeDone?
  }

  predicate IsReport(step: Step) {
    step.OnEvent? && step.event.record.PlatformReport?
  }

  ghost predicate Never(steps: seq<Step>, p: Step -> bool) {
    forall i :: 0 <= i < |steps| ==> !p(steps[i])
  }

  lemma DraftsAreStamped(c: LogClock, spanRef: SpanRef, ds: seq<Draft>)
    ensures |Stamp(c, spanRef, ds)| == |ds|
    ensures forall i :: 0 <= i < |ds| ==>
              Stamp(c, spanRef, ds)[i].draft == ds[i] && Stamp(c, spanRef, ds)[i].spanRef == spanRef
  {
    if ds != [] {
      DraftsAreStamped(c, spanRef, ds[..|ds| - 1]);
    }
  }

  // ---------------------------------------------------------------------------
  // Timestamps of all the logs of an invocation.

  function TimesOf(logs: seq<LogRecord>): seq<int> {
    seq(|logs|, i requires 0 <= i < |logs| => logs[i].draft.time)
  }

  /** The timestamps are those synthesized for the times of the logs. */
  ghost predicate Stamped(logs: seq<LogRecord>) {
    forall i :: 0 <= i < |logs| ==> logs[i].timestamp == Timestamps(TimesOf(logs))[i]
  }

  lemma StampedOneMore(logs: seq<LogRecord>, l: LogRecord)
    requires Stamped(logs) && l.timestamp == MakeLogTimestamp(ClockAfter(TimesOf(logs)), l.draft.time)
    ensures Stamped(logs + [l]) && ClockAfter(TimesOf(logs + [l])) == NextClock(ClockAfter(TimesOf(logs)), l.draft.time)
  {
    var times := TimesOf(logs + [l]);
    assert times[..|times| - 1] == TimesOf(logs);
    assert Timestamps(times) == Timestamps(TimesOf(logs)) + [l.timestamp];
  }

  lemma {:induction false} StampsContinue(logs: seq<LogRecord>, c: LogClock, spanRef: SpanRef, ds: seq<Draft>)
    requires Stamped(logs) && c == ClockAfter(TimesOf(logs))
    ensures Stamped(logs + Stamp(c, spanRef, ds))
    ensures ClockAfter(TimesOf(logs + Stamp(c, spanRef, ds))) == ClockAfterDrafts(c, ds)
  {
    if ds == [] {
      assert logs + [] == logs;
    } else {
      var front := ds[..|ds| - 1];
      StampsContinue(logs, c, spanRef, front);
      var before, l := logs + Stamp(c, spanRef, front), Last(Stamp(c, spanRef, ds));
      StampedOneMore(before, l);
      assert logs + Stamp(c, spanRef, ds) == before + [l];
    }
  }

  /** One clock runs through the whole invocation: the timestamps are those synthesized for the times of its
      logs in the order in which they go out. */
  lemma {:induction false} LogsShareAClock(config: Config, invoke: InvokeEvent, steps: seq<Step>)
    ensures Stamped(Run(config, invoke, steps).logs)
    ensures Run(config, invoke, steps).state.lastLog == ClockAfter(TimesOf(Run(config, invoke, steps).logs))
  {
    if steps != [] {
      var front := steps[..|steps| - 1];
      LogsShareAClock(config, invoke, front);
      var r := Run(config, invoke, front);
      var ds := DraftsOf(config, r.state, Last(steps));
      var spanRef := Prepared(config, r.state, Last(steps)).CurrentSpanRef();
      StampsContinue(r.logs, r.state.lastLog, spanRef, ds);
    }
  }
}
