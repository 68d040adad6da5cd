/** The event-merging state machine as a function of its state: one step at a time, and run to quiescence
    (src/telemetry/telemetry_service.rs). */
module EventMerge {
  import opened Sequences
  import opened Telemetry

  /** What the service did with an event: which invocation got it, counting from 0, or which degraded
      processing state, counting from 0. */
  datatype Treatment = OnInvocation(ordinal: nat) | Degraded(chunk: nat, context: FunctionContext)

  datatype Action =
    | Handled(event: Event, how: Treatment)
    | HandledSpans(ordinal: nat, spans: seq<ResourceSpans>)

  datatype QueuedInvoke = QueuedInvoke(event: InvokeEvent, spans: seq<ResourceSpans>)

  /** The parts of `InvocationProcessingState` that the service itself reads. */
  datatype OpenInvocation = OpenInvocation(ordinal: nat, invoke: InvokeEvent, runtimeDone: bool, reported: bool) {
    /** What processing an event does to those parts. */
    function After(e: Event): OpenInvocation {
      this.(runtimeDone := runtimeDone || e.record.PlatformRuntimeDone?,
            reported := reported || e.record.PlatformReport?)
    }
  }

  /** The input, processing and output state of the service. The last four fields are bookkeeping:
      how many invocations were opened, how many degraded states were created, how many events had been
      processed when the replay ended, and everything processed so far. */
  datatype State = State(
    invokeEventQueue: seq<QueuedInvoke>,
    telemetryEventQueue: seq<Event>,
    functionSpansBuffer: seq<ResourceSpans>,
    halfProcessedEventBuffer: seq<Event>,
    initHandlingStarted: bool,
    initHandled: bool,
    shutdownFlushStarted: bool,
    invocation: Option<OpenInvocation>,
    openings: nat,
    chunks: nat,
    replayEnd: nat,
    trace: seq<Action>)

  const INITIAL := State([], [], [], [], false, false, false, None, 0, 0, 0, [])

  // ---------------------------------------------------------------------------
  // Processing lists of events.

  function HandleAll(es: seq<Event>, how: Treatment): seq<Action> {
    seq(|es|, i requires 0 <= i < |es| => Handled(es[i], how))
  }

  function AfterAll(inv: OpenInvocation, es: seq<Event>): OpenInvocation
    decreases es
  {
    if es == [] then inv else AfterAll(inv.After(es[0]), es[1..])
  }

  /** `process_in_degraded_mode`: every call creates a degraded state of its own. */
  function ProcessInDegradedMode(s: State, context: FunctionContext, es: seq<Event>): State {
    s.(chunks := s.chunks + 1, trace := s.trace + HandleAll(es, Degraded(s.chunks, context)))
  }

  // ---------------------------------------------------------------------------
  // Single steps.

  predicate CanOpen(s: State) {
    s.invocation.None? && s.invokeEventQueue != []
  }

  /** Opens the next queued invocation; the held spans go first, then those queued with it. */
  function OpenNext(s: State): State
    requires CanOpen(s)
  {
    var q := s.invokeEventQueue[0];
    s.(invokeEventQueue := s.invokeEventQueue[1..],
       functionSpansBuffer := [],
       invocation := Some(OpenInvocation(s.openings, q.event, false, false)),
       openings := s.openings + 1,
       trace := s.trace + [HandledSpans(s.openings, s.functionSpansBuffer), HandledSpans(s.openings, q.spans)])
  }

  predicate CanTake(s: State) {
    s.invocation.Some? && s.telemetryEventQueue != []
  }

  function Hold(s: State, e: Event): State {
    s.(halfProcessedEventBuffer := s.halfProcessedEventBuffer + [e])
  }

  /** The held events are replayed on the open invocation. */
  function StartNormalProcessing(s: State): State
    requires s.invocation.Some?
  {
    var inv, es := s.invocation.value, s.halfProcessedEventBuffer;
    s.(initHandled := true,
       halfProcessedEventBuffer := [],
       invocation := Some(AfterAll(inv, es)),
       replayEnd := |EventTrace(s.trace)| + |es|,
       trace := s.trace + HandleAll(es, OnInvocation(inv.ordinal)))
  }

  /** Consumes the next telemetry event, or starts normal processing in front of it. */
  function TakeNext(s: State): State
    requires CanTake(s)
  {
    var e := s.telemetryEventQueue[0];
    var rest := s.(telemetryEventQueue := s.telemetryEventQueue[1..]);
    var inv := s.invocation.value;
    if !s.initHandlingStarted then
      if e.record.PlatformInitStart? then
        var flushed := if s.halfProcessedEventBuffer == [] then rest
                       else ProcessInDegradedMode(rest, inv.invoke.context, s.halfProcessedEventBuffer);
        flushed.(initHandlingStarted := true, halfProcessedEventBuffer := [e])
      else Hold(rest, e)
    else if !s.initHandled then
      if e.record.PlatformInitStart? then
        ProcessInDegradedMode(rest, inv.invoke.context, s.halfProcessedEventBuffer).(halfProcessedEventBuffer := [e])
      else if e.record == PlatformStart(inv.invoke.requestId) then
        StartNormalProcessing(s)
      else Hold(rest, e)
    else
      var after := inv.After(e);
      rest.(invocation := if after.reported then None else Some(after),
            trace := s.trace + [Handled(e, OnInvocation(inv.ordinal))])
  }

  predicate IsOpen(s: State, j: nat) {
    s.invocation.Some? && s.invocation.value.ordinal == j
  }

  predicate Quiescent(s: State) {
    !CanOpen(s) && !CanTake(s)
  }

  function Step(s: State): State
    requires !Quiescent(s)
  {
    if CanOpen(s) then OpenNext(s) else TakeNext(s)
  }

  /** `process_telemetry_events`. Starting normal processing leaves the event queue as it is, but happens once. */
  function Quiesce(s: State): State
    decreases !s.initHandled, |s.telemetryEventQueue|, |s.invokeEventQueue|
  {
    if Quiescent(s) then s else Quiesce(Step(s))
  }

  /** What every step keeps, running to quiescence keeps. */
  lemma {:induction false} QuiescePreserves(s: State, inv: State -> bool)
    requires inv(s) && forall t :: inv(t) && !Quiescent(t) ==> inv(Step(t))
    ensures inv(Quiesce(s))
    decreases !s.initHandled, |s.telemetryEventQueue|, |s.invokeEventQueue|
  {
    if !Quiescent(s) {
      QuiescePreserves(Step(s), inv);
    }
  }

  // ---------------------------------------------------------------------------
  // Inputs.

  datatype Input =
    | Invoked(invoke: InvokeEvent)
    | TelemetryReceived(events: seq<Event>)
    | SpansReceived(spans: seq<ResourceSpans>)

  function PushInvoke(s: State, e: InvokeEvent): State {
    s.(invokeEventQueue := s.invokeEventQueue + [QueuedInvoke(e, [])])
  }

  function PushTelemetry(s: State, es: seq<Event>): State {
    s.(telemetryEventQueue := s.telemetryEventQueue + es)
  }

  /** `handle_otlp_spans`: three places where spans can go. */
  function ReceiveSpans(s: State, rs: seq<ResourceSpans>): State {
    if s.invokeEventQueue != [] then
      var last := Last(s.invokeEventQueue);
      s.(invokeEventQueue := s.invokeEventQueue[|s.invokeEventQueue| - 1 := last.(spans := last.spans + rs)])
    else if s.invocation.Some? && !s.invocation.value.runtimeDone then
      s.(trace := s.trace + [HandledSpans(s.invocation.value.ordinal, rs)])
    else
      s.(functionSpansBuffer := s.functionSpansBuffer + rs)
  }

  /** After the shutdown flush nothing is processed any more. */
  function Process(s: State): State {
    if s.shutdownFlushStarted then s else Quiesce(s)
  }

  function Receive(s: State, input: Input): State {
    match input
    case Invoked(e) => Process(PushInvoke(s, e))
    case TelemetryReceived(es) => Process(PushTelemetry(s, es))
    case SpansReceived(rs) => ReceiveSpans(s, rs)
  }

  function Run(inputs: seq<Input>): State {
    if inputs == [] then INITIAL
    else Receive(Run(inputs[..|inputs| - 1]), Last(inputs))
  }

  /** `flush_enqueued_telemetry`: what is in the event queue goes out in degraded mode. */
  function Flush(s: State, context: FunctionContext): State {
    ProcessInDegradedMode(s.(shutdownFlushStarted := true, telemetryEventQueue := []), context, s.telemetryEventQueue)
  }

  /** A run that goes on from a state. */
  function RunFrom(s: State, inputs: seq<Input>): State {
    if inputs == [] then s else Receive(RunFrom(s, inputs[..|inputs| - 1]), Last(inputs))
  }

  // What arrived on each channel.

  function InvokesOf(inputs: seq<Input>): seq<InvokeEvent> {
    if inputs == [] then []
    else InvokesOf(inputs[..|inputs| - 1]) + if Last(inputs).Invoked? then [Last(inputs).invoke] else []
  }

  function EventsOf(inputs: seq<Input>): seq<Event> {
    if inputs == [] then []
    else EventsOf(inputs[..|inputs| - 1]) + if Last(inputs).TelemetryReceived? then Last(inputs).events else []
  }

  function SpansOf(inputs: seq<Input>): seq<ResourceSpans> {
    if inputs == [] then []
    else SpansOf(inputs[..|inputs| - 1]) + if Last(inputs).SpansReceived? then Last(inputs).spans else []
  }

  // What was done, without the spans and without the events respectively.

  datatype TreatedEvent = TreatedEvent(event: Event, how: Treatment)

  function EventTrace(trace: seq<Action>): seq<TreatedEvent> {
    if trace == [] then []
    else
      EventTrace(trace[..|trace| - 1])
      + if Last(trace).Handled? then [TreatedEvent(Last(trace).event, Last(trace).how)] else []
  }

  function SpanTrace(trace: seq<Action>): seq<ResourceSpans> {
    if trace == [] then []
    else SpanTrace(trace[..|trace| - 1]) + if Last(trace).HandledSpans? then Last(trace).spans else []
  }

  lemma {:induction false} EventTraceAppend(a: seq<Action>, b: seq<Action>)
    ensures EventTrace(a + b) == EventTrace(a) + EventTrace(b)
  {
    if b == [] {
      assert a + b == a;
    } else {
      assert (a + b)[..|a + b| - 1] == a + b[..|b| - 1];
      EventTraceAppend(a, b[..|b| - 1]);
    }
  }

  lemma {:induction false} SpanTraceAppend(a: seq<Action>, b: seq<Action>)
    ensures SpanTrace(a + b) == SpanTrace(a) + SpanTrace(b)
  {
    if b == [] {
      assert a + b == a;
    } else {
      assert (a + b)[..|a + b| - 1] == a + b[..|b| - 1];
      SpanTraceAppend(a, b[..|b| - 1]);
    }
  }

  function TreatAll(es: seq<Event>, how: Treatment): seq<TreatedEvent> {
    seq(|es|, i requires 0 <= i < |es| => TreatedEvent(es[i], how))
  }

  lemma {:induction false} HandleAllTraces(es: seq<Event>, how: Treatment)
    ensures EventTrace(HandleAll(es, how)) == TreatAll(es, how)
    ensures SpanTrace(HandleAll(es, how)) == []
  {
    if es != [] {
      var front := es[..|es| - 1];
      assert HandleAll(es, how)[..|es| - 1] == HandleAll(front, how);
      HandleAllTraces(front, how);
    }
  }
}
