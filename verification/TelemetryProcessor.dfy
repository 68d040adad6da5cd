/** The telemetry processor, updating the state of an invocation and the output buffers in place
    (src/telemetry/processor/telemetry_processor.rs, src/telemetry/mod.rs, src/telemetry/telemetry_service.rs). */
module TelemetryProcessor {
  import opened Sequences
  import opened Telemetry
  import opened SpanCapture
  import opened LogTimestamps
  import opened InvocationProcessing

  /** The buffered outputs of processing. */
  class OutputBuffers {
    var logsBuffer: seq<LogRecord>
    var functionSpansBuffer: seq<ScopeSpans>
    var functionSpansCount: nat
    var epsagonTracesBuffer: seq<string>

    ghost predicate Valid()
      reads this
    {
      functionSpansCount == |InScopes(functionSpansBuffer)|
    }

    constructor ()
      ensures Valid() && logsBuffer == [] && functionSpansBuffer == [] && epsagonTracesBuffer == []
    {
      logsBuffer, functionSpansBuffer, functionSpansCount, epsagonTracesBuffer := [], [], 0, [];
    }

    method AddFunctionResourceSpans(rss: seq<ResourceSpans>)
      requires Valid()
      modifies this`functionSpansBuffer, this`functionSpansCount
      ensures Valid()
      ensures InScopes(functionSpansBuffer) == old(InScopes(functionSpansBuffer)) + AllSpans(rss)
    {
      for i := 0 to |rss|
        invariant Valid()
        invariant InScopes(functionSpansBuffer) == old(InScopes(functionSpansBuffer)) + AllSpans(rss[..i])
      {
        AllSpansUpTo(rss, i);
        AddFunctionScopeSpans(rss[i].scopeSpans);
      }
      assert rss[..|rss|] == rss;
    }

    method AddFunctionScopeSpans(sss: seq<ScopeSpans>)
      requires Valid()
      modifies this`functionSpansBuffer, this`functionSpansCount
      ensures Valid()
      ensures functionSpansBuffer == old(functionSpansBuffer) + sss
      ensures InScopes(functionSpansBuffer) == old(InScopes(functionSpansBuffer)) + InScopes(sss)
    {
      ghost var before, seen := InScopes(functionSpansBuffer), [];
      for i := 0 to |sss|
        invariant seen == InScopes(sss[..i]) && functionSpansCount == |before| + |seen|
        invariant functionSpansBuffer == old(functionSpansBuffer) + sss[..i]
        invariant InScopes(functionSpansBuffer) == before + seen
      {
        InScopesUpTo(sss, i);
        InScopesNext(functionSpansBuffer, sss[i]);
        Associative(before, seen, InScope(sss[i]));
        seen := seen + InScope(sss[i]);
        functionSpansCount := functionSpansCount + |sss[i].spans|;
        functionSpansBuffer := functionSpansBuffer + [sss[i]];
      }
      assert sss[..|sss|] == sss;
    }

    method TakeFunctionSpans() returns (taken: seq<ScopeSpans>)
      modifies this`functionSpansBuffer, this`functionSpansCount
      ensures Valid() && taken == old(functionSpansBuffer) && functionSpansBuffer == [] && functionSpansCount == 0
    {
      functionSpansCount := 0;
      taken := functionSpansBuffer;
      functionSpansBuffer := [];
    }
  }

  lemma {:induction false} StampAppend(c: LogClock, spanRef: SpanRef, a: seq<Draft>, b: seq<Draft>)
    ensures Stamp(c, spanRef, a + b) == Stamp(c, spanRef, a) + Stamp(ClockAfterDrafts(c, a), spanRef, b)
    ensures ClockAfterDrafts(c, a + b) == ClockAfterDrafts(ClockAfterDrafts(c, a), b)
  {
    if b == [] {
      assert a + b == a;
    } else {
      assert (a + b)[..|a + b| - 1] == a + b[..|b| - 1];
      StampAppend(c, spanRef, a, b[..|b| - 1]);
    }
  }

  /** Logs put out one batch after the other are those of the two batches together. */
  lemma StampChain(logs: seq<LogRecord>, c: LogClock, spanRef: SpanRef, a: seq<Draft>, b: seq<Draft>)
    ensures logs + Stamp(c, spanRef, a) + Stamp(ClockAfterDrafts(c, a), spanRef, b) == logs + Stamp(c, spanRef, a + b)
    ensures ClockAfterDrafts(ClockAfterDrafts(c, a), b) == ClockAfterDrafts(c, a + b)
    ensures a + [] == a && [] + b == b
    ensures logs + Stamp(c, spanRef, []) == logs && ClockAfterDrafts(c, []) == c
  {
    StampAppend(c, spanRef, a, b);
  }

  /** The logs that waited: the start log and then the function logs. */
  lemma HeldStamps(config: Config, start: Option<Draft>, waiting: seq<RawLog>, logs: seq<LogRecord>, c: LogClock,
                   spanRef: SpanRef)
    ensures var first := if start.Some? && config.logStart then [start.value] else [];
            && logs + Stamp(c, spanRef, first) + Stamp(ClockAfterDrafts(c, first), spanRef, TextDrafts(waiting))
               == logs + Stamp(c, spanRef, HeldDrafts(config, start, waiting))
            && ClockAfterDrafts(ClockAfterDrafts(c, first), TextDrafts(waiting))
               == ClockAfterDrafts(c, HeldDrafts(config, start, waiting))
  {
    StampChain(logs, c, spanRef, if start.Some? && config.logStart then [start.value] else [], TextDrafts(waiting));
  }

  /** Spans in a scope each. */
  lemma {:induction false} ToScopeSpansKeeps(xs: seq<Scoped>)
    ensures InScopes(ToScopeSpans(xs)) == xs
  {
    if xs != [] {
      assert ToScopeSpans(xs)[..|xs| - 1] == ToScopeSpans(xs[..|xs| - 1]);
      ToScopeSpansKeeps(xs[..|xs| - 1]);
      assert InScope(Last(ToScopeSpans(xs))) == [Last(xs)];
    }
  }

  function WithoutDelay(config: Config, s: InvocationState): InvocationState {
    if config.structuredLogs && s.delayingLogs then s.(delayingLogs := false, logs := []) else s
  }

  lemma EffectOfRuntimeDone(config: Config, s: InvocationState, e: Event, id: Bytes)
    requires e.record.PlatformRuntimeDone?
    ensures DoStep(config, s, OnEvent(e, id))
         == Effect(WithoutDelay(config, s).(runtimeDone := Some(DoneOf(e)),
                                            lastLog := ClockAfterDrafts(s.lastLog, RuntimeDoneDrafts(config, s, e))),
                   Stamp(s.lastLog, s.CurrentSpanRef(), RuntimeDoneDrafts(config, s, e)),
                   if ProducesSpans(config, s) then SpecialSpans(s.tracing, DoneOf(e)) else [], [])
  {}

  lemma EffectOfReport(config: Config, s: InvocationState, e: Event, id: Bytes)
    requires e.record.PlatformReport?
    ensures DoStep(config, s, OnEvent(e, id))
         == Effect(s.(reported := true, logs := if config.structuredLogs then [] else s.logs,
                      lastLog := ClockAfterDrafts(s.lastLog, ReportDrafts(config, s, e))),
                   Stamp(s.lastLog, s.CurrentSpanRef(), ReportDrafts(config, s, e)), [], [])
  {}

  lemma EffectOfSpans(config: Config, s: InvocationState, rs: seq<ResourceSpans>)
    ensures DoStep(config, s, OnSpans(rs)) == SpansEffect(config, s, WithSpans(config, s, rs), rs)
  {}

  function SpansEffect(config: Config, s: InvocationState, s1: InvocationState, rs: seq<ResourceSpans>): Effect {
    Effect(s1.(delayingLogs := s1.delayingLogs && !Releases(config, s1),
               logs := if Releases(config, s1) then [] else s1.logs,
               lastLog := ClockAfterDrafts(s1.lastLog, EarlyDrafts(config, s1))),
           Stamp(s1.lastLog, s1.CurrentSpanRef(), EarlyDrafts(config, s1)),
           if ProducesSpans(config, s) then ForwardAll(s.tracing, AllSpans(rs), config.excludes) else [], [])
  }

  class InvocationProcessingState {
    const invoke: InvokeEvent
    var initSpanId: Option<Bytes>
    var initStarted: bool
    var initReported: bool
    var start: Option<Draft>
    var runtimeDone: Option<RuntimeDone>
    var reported: bool
    var delayingLogs: bool
    var logs: seq<RawLog>
    const tracing: InvocationTracingState
    const lastLogState: LastLogState

    function View(): InvocationState
      reads this, tracing, lastLogState
    {
      InvocationState(invoke, initSpanId, initStarted, initReported, start, runtimeDone, reported, delayingLogs, logs,
                      tracing.View(), lastLogState.View())
    }

    constructor (config: Config, invoke: InvokeEvent)
      ensures View() == NewInvocation(config, invoke)
      ensures fresh(tracing) && fresh(lastLogState)
    {
      this.invoke := invoke;
      initSpanId, initStarted, initReported, start, runtimeDone, reported := None, false, false, None, None, false;
      delayingLogs, logs := config.tracingMode.OtelInstrumentation?, [];
      tracing := new InvocationTracingState(config.sampleAll || invoke.sampled);
      lastLogState := new LastLogState();
    }

    function InvocationSpan(): Option<Span>
      reads tracing
    {
      tracing.View().InvocationSpan()
    }

    function CurrentTraceId(): Bytes
      reads tracing
    {
      if InvocationSpan().Some? then InvocationSpan().value.traceId else invoke.traceId
    }

    function CurrentSpanId(): Bytes
      reads this`initSpanId, this`initStarted, this`initReported, tracing
    {
      if initStarted && !initReported then
        if initSpanId.Some? then initSpanId.value else invoke.invocationSpanId
      else
        if InvocationSpan().Some? then InvocationSpan().value.spanId else invoke.invocationSpanId
    }

    function CurrentSpanRef(): SpanRef
      reads this`initSpanId, this`initStarted, this`initReported, tracing
    {
      SpanRef(CurrentTraceId(), CurrentSpanId())
    }

    lemma RefOfView()
      ensures CurrentSpanRef() == View().CurrentSpanRef()
    {}

    /** Makes a log and puts it out. */
    method PushLog(draft: Draft, outputs: OutputBuffers)
      modifies lastLogState, outputs`logsBuffer
      ensures lastLogState.View() == ClockAfterDrafts(old(lastLogState.View()), [draft])
      ensures outputs.logsBuffer == old(outputs.logsBuffer) + Stamp(old(lastLogState.View()), CurrentSpanRef(), [draft])
    {
      assert [draft][..0] == [];
      var timestamp := lastLogState.MakeTimestamp(draft.time);
      outputs.logsBuffer := outputs.logsBuffer + [LogRecord(draft, timestamp, CurrentSpanRef())];
    }

    /** Puts out the function logs that wait. */
    method PushLogs(outputs: OutputBuffers)
      modifies this`logs, lastLogState, outputs`logsBuffer
      ensures logs == [] && lastLogState.View() == ClockAfterDrafts(old(lastLogState.View()), TextDrafts(old(logs)))
      ensures outputs.logsBuffer
           == old(outputs.logsBuffer) + Stamp(old(lastLogState.View()), CurrentSpanRef(), TextDrafts(old(logs)))
    {
      var waiting := logs;
      logs := [];
      ghost var c, ds := lastLogState.View(), TextDrafts(waiting);
      for i := 0 to |waiting|
        invariant logs == [] && lastLogState.View() == ClockAfterDrafts(c, ds[..i])
        invariant outputs.logsBuffer == old(outputs.logsBuffer) + Stamp(c, CurrentSpanRef(), ds[..i])
      {
        StampChain(old(outputs.logsBuffer), c, CurrentSpanRef(), ds[..i], [ds[i]]);
        assert ds[..i + 1] == ds[..i] + [ds[i]];
        PushLog(Draft(FunctionText(waiting[i].text), waiting[i].time), outputs);
      }
      assert ds[..|waiting|] == ds;
    }

    method ProcessDelayedLogs(config: Config, outputs: OutputBuffers)
      modifies this`logs, lastLogState, outputs`logsBuffer
      ensures logs == []
      ensures lastLogState.View() == ClockAfterDrafts(old(lastLogState.View()), HeldDrafts(config, start, old(logs)))
      ensures outputs.logsBuffer
           == old(outputs.logsBuffer)
              + Stamp(old(lastLogState.View()), CurrentSpanRef(), HeldDrafts(config, start, old(logs)))
    {
      HeldStamps(config, start, logs, outputs.logsBuffer, lastLogState.View(), CurrentSpanRef());
      PushStart(config, outputs);
      PushLogs(outputs);
    }

    /** Puts out the start log, if there is to be one. */
    method PushStart(config: Config, outputs: OutputBuffers)
      modifies lastLogState, outputs`logsBuffer
      ensures var first := if start.Some? && config.logStart then [start.value] else [];
              && lastLogState.View() == ClockAfterDrafts(old(lastLogState.View()), first)
              && outputs.logsBuffer
                 == old(outputs.logsBuffer) + Stamp(old(lastLogState.View()), CurrentSpanRef(), first)
    {
      if start.Some? && config.logStart {
        PushLog(start.value, outputs);
      } else {
        StampChain(outputs.logsBuffer, lastLogState.View(), CurrentSpanRef(), [], []);
      }
    }

    /** The effect of a step has happened. */
    ghost predicate Did(d: Effect, outputs: OutputBuffers, logs0: seq<LogRecord>, spans0: seq<Scoped>,
                        traces0: seq<string>)
      reads this, tracing, lastLogState, outputs
    {
      && outputs.Valid()
      && View() == d.state
      && outputs.logsBuffer == logs0 + d.logs
      && InScopes(outputs.functionSpansBuffer) == spans0 + d.spans
      && outputs.epsagonTracesBuffer == traces0 + d.epsagonTraces
    }

    method ProcessTelemetry(config: Config, e: Event, randomId: Bytes, outputs: OutputBuffers)
      requires outputs.Valid()
      modifies this, lastLogState, outputs
      ensures Did(DoStep(config, old(View()), OnEvent(e, randomId)), outputs,
                  old(outputs.logsBuffer), old(InScopes(outputs.functionSpansBuffer)), old(outputs.epsagonTracesBuffer))
    {
      match e.record {
        case FunctionLog(_) => ProcessFunctionLog(config, e, randomId, outputs);
        case PlatformInitStart =>
          initSpanId := Some(randomId);
          initStarted := true;
        case PlatformInitReport => initReported := true;
        case PlatformStart(_) => ProcessStart(config, e, randomId, outputs);
        case PlatformRuntimeDone(_, _, _) => ProcessRuntimeDone(config, e, randomId, outputs);
        case PlatformReport(_) => ProcessReport(config, e, randomId, outputs);
        case ExtensionLog =>
        case PlatformInitRuntimeDone =>
        case PlatformOther =>
      }
    }

    method ProcessFunctionLog(config: Config, e: Event, ghost randomId: Bytes, outputs: OutputBuffers)
      requires outputs.Valid() && e.record.FunctionLog?
      modifies this`logs, lastLogState, outputs`logsBuffer, outputs`epsagonTracesBuffer
      ensures Did(DoStep(config, old(View()), OnEvent(e, randomId)), outputs,
                  old(outputs.logsBuffer), old(InScopes(outputs.functionSpansBuffer)), old(outputs.epsagonTracesBuffer))
    {
      RefOfView();
      var text := e.record.text;
      if config.structuredLogs {
        match config.epsagonTrace(text) {
          case Some(trace) => outputs.epsagonTracesBuffer := outputs.epsagonTracesBuffer + [trace];
          case None =>
            if delayingLogs {
              logs := logs + [RawLog(text, e.time)];
            } else {
              PushLog(Draft(FunctionText(text), e.time), outputs);
            }
        }
      }
    }

    method ProcessStart(config: Config, e: Event, ghost randomId: Bytes, outputs: OutputBuffers)
      requires outputs.Valid() && e.record.PlatformStart?
      modifies this`start, lastLogState, outputs`logsBuffer
      ensures Did(DoStep(config, old(View()), OnEvent(e, randomId)), outputs,
                  old(outputs.logsBuffer), old(InScopes(outputs.functionSpansBuffer)), old(outputs.epsagonTracesBuffer))
    {
      RefOfView();
      var data := Draft(StartBody(e.record.requestId), e.time);
      if config.structuredLogs && config.logStart && !delayingLogs {
        PushLog(data, outputs);
      }
      start := Some(data);
    }

    method ProcessRuntimeDone(config: Config, e: Event, ghost randomId: Bytes, outputs: OutputBuffers)
      requires outputs.Valid() && e.record.PlatformRuntimeDone?
      modifies this`delayingLogs, this`logs, this`runtimeDone, lastLogState
      modifies outputs`logsBuffer, outputs`functionSpansBuffer, outputs`functionSpansCount
      ensures Did(DoStep(config, old(View()), OnEvent(e, randomId)), outputs,
                  old(outputs.logsBuffer), old(InScopes(outputs.functionSpansBuffer)), old(outputs.epsagonTracesBuffer))
    {
      EffectOfRuntimeDone(config, View(), e, randomId);
      RefOfView();
      LogRuntimeDone(config, e, outputs);
      runtimeDone := Some(DoneOf(e));
      EmitSpecialSpans(config, DoneOf(e), outputs);
    }

    method EmitSpecialSpans(config: Config, done: RuntimeDone, outputs: OutputBuffers)
      requires outputs.Valid()
      modifies outputs`functionSpansBuffer, outputs`functionSpansCount
      ensures outputs.Valid()
      ensures InScopes(outputs.functionSpansBuffer)
           == old(InScopes(outputs.functionSpansBuffer))
              + if ProducesSpans(config, View()) then SpecialSpans(tracing.View(), done) else []
    {
      if tracing.shouldProduceSpans && config.tracingMode.OtelInstrumentation? {
        var special := tracing.EmitTriggerAndInvocationSpans(done);
        ToScopeSpansKeeps(SpecialSpans(tracing.View(), done));
        outputs.AddFunctionScopeSpans(special);
      }
    }

    /** The runtime is done: no more waiting for the invocation span. */
    method LogRuntimeDone(config: Config, e: Event, outputs: OutputBuffers)
      requires e.record.PlatformRuntimeDone?
      modifies this`delayingLogs, this`logs, lastLogState, outputs`logsBuffer
      ensures delayingLogs == (old(delayingLogs) && !config.structuredLogs)
      ensures logs == if config.structuredLogs && old(delayingLogs) then [] else old(logs)
      ensures lastLogState.View()
           == ClockAfterDrafts(old(lastLogState.View()), old(RuntimeDoneDrafts(config, View(), e)))
      ensures outputs.logsBuffer
           == old(outputs.logsBuffer)
              + Stamp(old(lastLogState.View()), old(CurrentSpanRef()), old(RuntimeDoneDrafts(config, View(), e)))
    {
      if config.structuredLogs {
        var done := Draft(RuntimeDoneBody(e.record.requestId, DoneOf(e), ErrorOf(InvocationSpan())), e.time);
        StampChain(outputs.logsBuffer, lastLogState.View(), CurrentSpanRef(), ReleasedDrafts(config, View()), [done]);
        EndDelay(config, outputs);
        if config.logRuntimeDone {
          PushLog(done, outputs);
        }
      }
    }

    method EndDelay(config: Config, outputs: OutputBuffers)
      modifies this`delayingLogs, this`logs, lastLogState, outputs`logsBuffer
      ensures !delayingLogs && logs == if old(delayingLogs) then [] else old(logs)
      ensures lastLogState.View() == ClockAfterDrafts(old(lastLogState.View()), old(ReleasedDrafts(config, View())))
      ensures outputs.logsBuffer
           == old(outputs.logsBuffer)
              + Stamp(old(lastLogState.View()), old(CurrentSpanRef()), old(ReleasedDrafts(config, View())))
    {
      if delayingLogs {
        delayingLogs := false;
        ProcessDelayedLogs(config, outputs);
      }
    }

    method ProcessReport(config: Config, e: Event, ghost randomId: Bytes, outputs: OutputBuffers)
      requires outputs.Valid() && e.record.PlatformReport?
      modifies this`logs, this`reported, lastLogState, outputs`logsBuffer
      ensures Did(DoStep(config, old(View()), OnEvent(e, randomId)), outputs,
                  old(outputs.logsBuffer), old(InScopes(outputs.functionSpansBuffer)), old(outputs.epsagonTracesBuffer))
    {
      EffectOfReport(config, View(), e, randomId);
      RefOfView();
      if config.structuredLogs {
        LogReport(config, e, outputs);
      }
      reported := true;
    }

    /** First any logs that were made after the runtime was done. */
    method LogReport(config: Config, e: Event, outputs: OutputBuffers)
      requires e.record.PlatformReport? && config.structuredLogs
      modifies this`logs, lastLogState, outputs`logsBuffer
      ensures logs == []
      ensures lastLogState.View() == ClockAfterDrafts(old(lastLogState.View()), old(ReportDrafts(config, View(), e)))
      ensures outputs.logsBuffer
           == old(outputs.logsBuffer)
              + Stamp(old(lastLogState.View()), old(CurrentSpanRef()), old(ReportDrafts(config, View(), e)))
    {
      var report := Draft(ReportBody(e.record.requestId), e.time);
      StampChain(outputs.logsBuffer, lastLogState.View(), CurrentSpanRef(), TextDrafts(logs), [report]);
      PushLogs(outputs);
      if config.logReport {
        PushLog(report, outputs);
      }
    }

    method ProcessFunctionSpans(config: Config, functionSpans: seq<ResourceSpans>, outputs: OutputBuffers)
      requires outputs.Valid()
      modifies this, tracing, lastLogState, outputs
      ensures Did(DoStep(config, old(View()), OnSpans(functionSpans)), outputs,
                  old(outputs.logsBuffer), old(InScopes(outputs.functionSpansBuffer)), old(outputs.epsagonTracesBuffer))
    {
      ghost var s := View();
      ghost var s1 := WithSpans(config, s, functionSpans);
      CaptureFunctionSpans(config, functionSpans, outputs);
      RefOfView();
      ReleaseLogs(config, outputs);
      assert View() == SpansEffect(config, s, s1, functionSpans).state;
      EffectOfSpans(config, s, functionSpans);
    }

    /** With the ids of an early invocation span there is no need to wait any longer. */
    method ReleaseLogs(config: Config, outputs: OutputBuffers)
      modifies this`delayingLogs, this`logs, lastLogState, outputs`logsBuffer
      ensures delayingLogs == (old(delayingLogs) && !old(Releases(config, View())))
      ensures logs == if old(Releases(config, View())) then [] else old(logs)
      ensures lastLogState.View() == ClockAfterDrafts(old(lastLogState.View()), old(EarlyDrafts(config, View())))
      ensures outputs.logsBuffer
           == old(outputs.logsBuffer)
              + Stamp(old(lastLogState.View()), old(CurrentSpanRef()), old(EarlyDrafts(config, View())))
    {
      if config.structuredLogs && delayingLogs && tracing.cxEarlyInvocationSpan.Some? {
        EndDelay(config, outputs);
      }
    }

    method CaptureFunctionSpans(config: Config, functionSpans: seq<ResourceSpans>, outputs: OutputBuffers)
      requires outputs.Valid()
      modifies tracing, outputs`functionSpansBuffer, outputs`functionSpansCount
      ensures outputs.Valid() && View() == WithSpans(config, old(View()), functionSpans)
      ensures InScopes(outputs.functionSpansBuffer)
           == old(InScopes(outputs.functionSpansBuffer))
              + if ProducesSpans(config, old(View()))
                then ForwardAll(old(tracing.View()), AllSpans(functionSpans), config.excludes)
                else []
    {
      var rest := tracing.ProcessFunctionSpans(functionSpans, config.excludes);
      if tracing.shouldProduceSpans && config.tracingMode.OtelInstrumentation? {
        outputs.AddFunctionResourceSpans(rest);
      }
    }
  }
}
