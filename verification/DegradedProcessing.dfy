/** Processing of events that cannot be merged with an invoke event: logs go out at once, under a made-up
    reference of their chunk (src/telemetry/processor/telemetry_processor.rs, src/telemetry/mod.rs). */
module DegradedProcessing {
  import opened Sequences
  import opened Telemetry
  import opened LogTimestamps
  import opened InvocationProcessing
  import opened TelemetryProcessor
  import opened DelayedLogs
  import opened References
  import opened ClosingLogs

  function DegradedDrafts(config: Config, e: Event): seq<Draft> {
    if !config.structuredLogs then []
    else
      match e.record
      case FunctionLog(text) => if config.epsagonTrace(text).Some? then [] else [Draft(FunctionText(text), e.time)]
      case PlatformStart(id) => if config.logStart then [Draft(StartBody(id), e.time)] else []
      case PlatformRuntimeDone(id, _, _) =>
        if config.logRuntimeDone then [Draft(RuntimeDoneBody(id, DoneOf(e), None), e.time)] else []
      case PlatformReport(id) => if config.logReport then [Draft(ReportBody(id), e.time)] else []
      case _ => []
  }

  function ChunkDrafts(config: Config, es: seq<Event>): seq<Draft> {
    if es == [] then [] else ChunkDrafts(config, es[..|es| - 1]) + DegradedDrafts(config, Last(es))
  }

  function EventSteps(es: seq<Event>): seq<Step> {
    seq(|es|, i requires 0 <= i < |es| => OnEvent(es[i], []))
  }

  /** The function logs and start logs among these are those of the steps, as far as they are switched on. */
  ghost predicate LogsAllOf(config: Config, steps: seq<Step>, ds: seq<Draft>) {
    Texts(ds) == TextsIn(config, steps) && Starts(ds) == if config.logStart then StartsIn(steps) else []
  }

  lemma OneMoreDegraded(config: Config, steps: seq<Step>, front: seq<Draft>, ds: seq<Draft>)
    requires config.structuredLogs && steps != [] && Last(steps).OnEvent?
    requires LogsAllOf(config, steps[..|steps| - 1], front)
    requires ds == front + DegradedDrafts(config, Last(steps).event)
    ensures LogsAllOf(config, steps, ds)
  {
    OneDegraded(config, Last(steps).event, Last(steps).randomId);
    ProjectionsAppend(front, DegradedDrafts(config, Last(steps).event));
  }

  lemma {:induction false} ChunkLogs(config: Config, es: seq<Event>, steps: seq<Step>)
    requires config.structuredLogs
    requires |steps| == |es| && forall i :: 0 <= i < |es| ==> steps[i] == OnEvent(es[i], [])
    ensures LogsAllOf(config, steps, ChunkDrafts(config, es))
  {
    if es != [] {
      var n := |es| - 1;
      ChunkLogs(config, es[..n], steps[..n]);
      OneMoreDegraded(config, steps, ChunkDrafts(config, es[..n]), ChunkDrafts(config, es));
    }
  }

  /** No log of a chunk is held back, lost or reordered. */
  lemma ChunkLogsConserved(config: Config, es: seq<Event>)
    requires config.structuredLogs
    ensures Texts(ChunkDrafts(config, es)) == TextsIn(config, EventSteps(es))
    ensures Starts(ChunkDrafts(config, es)) == if config.logStart then StartsIn(EventSteps(es)) else []
  {
    ChunkLogs(config, es, EventSteps(es));
  }

  lemma {:induction false} ChunkSilentWhenOff(config: Config, es: seq<Event>)
    requires !config.structuredLogs
    ensures ChunkDrafts(config, es) == []
  {
    if es != [] {
      ChunkSilentWhenOff(config, es[..|es| - 1]);
    }
  }

  lemma OneDegraded(config: Config, e: Event, id: Bytes)
    requires config.structuredLogs
    ensures Texts(DegradedDrafts(config, e)) == TextIn(config, OnEvent(e, id))
    ensures Starts(DegradedDrafts(config, e)) == if config.logStart then StartIn(OnEvent(e, id)) else []
  {
    match e.record
    case FunctionLog(text) => ProjectionsOne(Draft(FunctionText(text), e.time));
    case PlatformStart(id) => ProjectionsOne(Draft(StartBody(id), e.time));
    case PlatformRuntimeDone(id, _, _) => ProjectionsOne(Draft(RuntimeDoneBody(id, DoneOf(e), None), e.time));
    case PlatformReport(id) => ProjectionsOne(Draft(ReportBody(id), e.time));
    case _ =>
  }

  lemma {:induction false} NoSpansInChunk(es: seq<Event>)
    ensures SpansIn(EventSteps(es)) == []
  {
    if es != [] {
      assert EventSteps(es)[..|es| - 1] == EventSteps(es[..|es| - 1]);
      NoSpansInChunk(es[..|es| - 1]);
    }
  }

  lemma OneDegradedCloses(config: Config, steps: seq<Step>, e: Event, id: Bytes)
    requires config.structuredLogs && InvocationSpanOf(config, steps).None?
    ensures ClosesRight(config, steps, OnEvent(e, id), Closings(DegradedDrafts(config, e)))
  {
    var ds := DegradedDrafts(config, e);
    if ds != [] {
      assert ds == [ds[0]];
      ClosingsOne(ds[0]);
    }
  }

  /** In a chunk, too, the end of the runtime and of the invocation are logged once per event, in order; no failure
      is told, as there is no span. */
  lemma {:induction false} ChunkClosings(config: Config, es: seq<Event>)
    requires config.structuredLogs
    ensures OnePerStep(config, EventSteps(es), ClosesAt(config, EventSteps(es)), Closings(ChunkDrafts(config, es)))
  {
    if es != [] {
      var front := es[..|es| - 1];
      ChunkClosings(config, front);
      NoSpansInChunk(front);
      var ds := DegradedDrafts(config, Last(es));
      OneDegradedCloses(config, EventSteps(front), Last(es), []);
      OnePerStepNext(config, EventSteps(front), OnEvent(Last(es), []), Closings(ChunkDrafts(config, front)),
                     Closings(ds));
      assert EventSteps(es) == EventSteps(front) + [OnEvent(Last(es), [])];
      ClosingsAppend(ChunkDrafts(config, front), ds);
    }
  }

  class DegradedProcessingState {
    const spanRef: SpanRef
    var reported: bool
    const lastLogState: LastLogState

    constructor (traceId: Bytes, spanId: Bytes)
      ensures spanRef == SpanRef(traceId, spanId) && lastLogState.View() == EPOCH
      ensures fresh(lastLogState)
    {
      spanRef := SpanRef(traceId, spanId);
      reported := false;
      lastLogState := new LastLogState();
    }

    method PushLog(draft: Draft, outputs: OutputBuffers)
      modifies lastLogState, outputs`logsBuffer
      ensures lastLogState.View() == ClockAfterDrafts(old(lastLogState.View()), [draft])
      ensures outputs.logsBuffer == old(outputs.logsBuffer) + Stamp(old(lastLogState.View()), spanRef, [draft])
    {
      assert [draft][..0] == [];
      var timestamp := lastLogState.MakeTimestamp(draft.time);
      outputs.logsBuffer := outputs.logsBuffer + [LogRecord(draft, timestamp, spanRef)];
    }

    /** `process_telemetry_in_degraded_mode` */
    method ProcessTelemetry(config: Config, e: Event, outputs: OutputBuffers)
      modifies this, lastLogState, outputs`logsBuffer, outputs`epsagonTracesBuffer
      ensures lastLogState.View() == ClockAfterDrafts(old(lastLogState.View()), DegradedDrafts(config, e))
      ensures outputs.logsBuffer
           == old(outputs.logsBuffer) + Stamp(old(lastLogState.View()), spanRef, DegradedDrafts(config, e))
      ensures outputs.epsagonTracesBuffer == old(outputs.epsagonTracesBuffer) + TracesOf(config, OnEvent(e, []))
      ensures reported == (old(reported) || e.record.PlatformReport?)
    {
      match e.record {
        case FunctionLog(text) =>
          if config.structuredLogs {
            match config.epsagonTrace(text) {
              case Some(trace) => outputs.epsagonTracesBuffer := outputs.epsagonTracesBuffer + [trace];
              case None => PushLog(Draft(FunctionText(text), e.time), outputs);
            }
          }
        case PlatformStart(id) =>
          if config.structuredLogs && config.logStart {
            PushLog(Draft(StartBody(id), e.time), outputs);
          }
        case PlatformRuntimeDone(id, _, _) =>
          if config.structuredLogs && config.logRuntimeDone {
            PushLog(Draft(RuntimeDoneBody(id, DoneOf(e), None), e.time), outputs);
          }
        case PlatformReport(id) =>
          if config.structuredLogs && config.logReport {
            PushLog(Draft(ReportBody(id), e.time), outputs);
          }
          reported := true;
        case _ =>
      }
    }
  }

  /** `process_in_degraded_mode`: the whole chunk refers to one span and has a clock of its own. */
  method ProcessChunk(config: Config, traceId: Bytes, spanId: Bytes, events: seq<Event>, outputs: OutputBuffers)
    modifies outputs`logsBuffer, outputs`epsagonTracesBuffer
    ensures outputs.logsBuffer
         == old(outputs.logsBuffer) + Stamp(EPOCH, SpanRef(traceId, spanId), ChunkDrafts(config, events))
    ensures outputs.epsagonTracesBuffer == old(outputs.epsagonTracesBuffer) + TracesIn(config, EventSteps(events))
  {
    var state := new DegradedProcessingState(traceId, spanId);
    ghost var logs0, traces0 := outputs.logsBuffer, outputs.epsagonTracesBuffer;
    for i := 0 to |events|
      invariant fresh(state) && fresh(state.lastLogState) && state.spanRef == SpanRef(traceId, spanId)
      invariant state.lastLogState.View() == ClockAfterDrafts(EPOCH, ChunkDrafts(config, events[..i]))
      invariant outputs.logsBuffer == logs0 + Stamp(EPOCH, SpanRef(traceId, spanId), ChunkDrafts(config, events[..i]))
      invariant outputs.epsagonTracesBuffer == traces0 + TracesIn(config, EventSteps(events[..i]))
    {
      assert events[..i + 1][..i] == events[..i];
      assert EventSteps(events[..i + 1])[..i] == EventSteps(events[..i]);
      StampChain(logs0, EPOCH, SpanRef(traceId, spanId), ChunkDrafts(config, events[..i]),
                 DegradedDrafts(config, events[i]));
      Associative(traces0, TracesIn(config, EventSteps(events[..i])), TracesOf(config, OnEvent(events[i], [])));
      state.ProcessTelemetry(config, events[i], outputs);
    }
    assert events[..|events|] == events;
  }
}
