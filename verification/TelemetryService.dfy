/** The telemetry service, updating its queues, buffers and flags in place
    (src/telemetry/telemetry_service.rs). */
module TelemetryService {
  import opened Sequences
  import opened Telemetry
  import opened EventMerge
  import opened DoneFlag
  import opened InvocationDone

  lemma QuiesceOpens(s: State)
    requires CanOpen(s)
    ensures Quiesce(s) == Quiesce(OpenNext(s))
    ensures OpenNext(s).initHandled == s.initHandled && OpenNext(s).telemetryEventQueue == s.telemetryEventQueue
  {}

  /** Taking an event shortens the queue, or starts normal processing once and for all. */
  lemma QuiesceTakes(s: State)
    requires CanTake(s)
    ensures Quiesce(s) == Quiesce(TakeNext(s))
    ensures if TakeNext(s).initHandled == s.initHandled
            then |TakeNext(s).telemetryEventQueue| < |s.telemetryEventQueue|
            else TakeNext(s).initHandled
  {}

  class TelemetryService {
    // inputs
    var invokeEventQueue: seq<QueuedInvoke>
    var telemetryEventQueue: seq<Event>
    var functionSpansBuffer: seq<ResourceSpans>

    // state of processing
    var halfProcessedEventBuffer: seq<Event>
    var initHandlingStarted: bool
    var initHandled: bool
    var shutdownFlushStarted: bool
    var invocation: Option<OpenInvocation>

    // bookkeeping
    var openings: nat
    ghost var chunks: nat
    ghost var replayEnd: nat
    ghost var trace: seq<Action>
    ghost var inputs: seq<Input>

    ghost function View(): State
      reads this
    {
      State(invokeEventQueue, telemetryEventQueue, functionSpansBuffer, halfProcessedEventBuffer,
            initHandlingStarted, initHandled, shutdownFlushStarted, invocation,
            openings, chunks, replayEnd, trace)
    }

    /** Until the shutdown flush, the state is that of the run over everything received. */
    ghost predicate Valid()
      reads this
    {
      !shutdownFlushStarted ==> View() == Run(inputs)
    }

    constructor ()
      ensures Valid() && View() == INITIAL && inputs == []
    {
      invokeEventQueue, telemetryEventQueue, functionSpansBuffer := [], [], [];
      halfProcessedEventBuffer, initHandlingStarted, initHandled, shutdownFlushStarted := [], false, false, false;
      invocation, openings, chunks, replayEnd, trace, inputs := None, 0, 0, 0, [], [];
    }

    method HandleInvokeEvent(e: InvokeEvent) returns (invocationDone: bool)
      requires Valid()
      modifies this
      ensures Valid() && inputs == old(inputs) + [Invoked(e)]
      ensures View() == Receive(old(View()), Invoked(e))
      ensures invocationDone <==> !old(shutdownFlushStarted) && FinishesRuntime(old(inputs), inputs)
    {
      ghost var flushed := shutdownFlushStarted;
      invokeEventQueue := invokeEventQueue + [QueuedInvoke(e, [])];
      invocationDone := HandleTelemetry();
      inputs := inputs + [Invoked(e)];
      assert inputs[..|inputs| - 1] == old(inputs);
      if !flushed {
        DoneExactlyWhen(inputs);
      }
    }

    method HandleIncomingTelemetry(events: seq<Event>) returns (invocationDone: bool)
      requires Valid()
      modifies this
      ensures Valid() && inputs == old(inputs) + [TelemetryReceived(events)]
      ensures View() == Receive(old(View()), TelemetryReceived(events))
      ensures invocationDone <==> !old(shutdownFlushStarted) && FinishesRuntime(old(inputs), inputs)
    {
      ghost var flushed := shutdownFlushStarted;
      telemetryEventQueue := telemetryEventQueue + events;
      invocationDone := HandleTelemetry();
      inputs := inputs + [TelemetryReceived(events)];
      assert inputs[..|inputs| - 1] == old(inputs);
      if !flushed {
        DoneExactlyWhen(inputs);
      }
    }

    method HandleOtlpSpans(resourceSpans: seq<ResourceSpans>)
      requires Valid()
      modifies this
      ensures Valid() && inputs == old(inputs) + [SpansReceived(resourceSpans)]
      ensures View() == Receive(old(View()), SpansReceived(resourceSpans))
    {
      if invokeEventQueue != [] {
        var n := |invokeEventQueue| - 1;
        var lastEvent := invokeEventQueue[n];
        invokeEventQueue := invokeEventQueue[n := lastEvent.(spans := lastEvent.spans + resourceSpans)];
      } else {
        match invocation {
          case Some(inv) =>
            if inv.runtimeDone {
              functionSpansBuffer := functionSpansBuffer + resourceSpans;
            } else {
              trace := trace + [HandledSpans(inv.ordinal, resourceSpans)];
            }
          case None =>
            functionSpansBuffer := functionSpansBuffer + resourceSpans;
        }
      }
      inputs := inputs + [SpansReceived(resourceSpans)];
      assert inputs[..|inputs| - 1] == old(inputs);
    }

    method FlushEnqueuedTelemetry(context: FunctionContext)
      modifies this
      ensures Valid() && View() == Flush(old(View()), context) && inputs == old(inputs)
    {
      shutdownFlushStarted := true;
      var events := telemetryEventQueue;
      telemetryEventQueue := [];
      ProcessDegraded(context, events);
    }

    /** `try_processing_telemetry`: after the shutdown flush, telemetry is lost. */
    method HandleTelemetry() returns (invocationDone: bool)
      modifies this
      ensures View() == Process(old(View())) && inputs == old(inputs)
      ensures invocationDone <==> !old(shutdownFlushStarted) && DoneSince(old(View()), View())
    {
      if shutdownFlushStarted {
        invocationDone := false;
      } else {
        invocationDone := ProcessTelemetryEvents();
      }
    }

    /** Returns true if at least one runtime-done event was processed. */
    method ProcessTelemetryEvents() returns (invocationDone: bool)
      modifies this
      ensures View() == Quiesce(old(View())) && inputs == old(inputs)
      ensures invocationDone <==> DoneSince(old(View()), View())
    {
      invocationDone := false;
      ghost var start, goal := View(), Quiesce(View());
      while true
        invariant Quiesce(View()) == goal && inputs == old(inputs)
        invariant Progress(start, View())
        invariant invocationDone <==> DoneSince(start, View())
        decreases !initHandled, |telemetryEventQueue|
      {
        if invocation.None? {
          if invokeEventQueue == [] {
            break;
          }
          QuiesceOpens(View());
          OpenProgress(start, View());
          OpenInvocation();
        }
        if telemetryEventQueue == [] {
          break;
        }
        QuiesceTakes(View());
        TakeProgress(start, View());
        var done := TakeEvent();
        invocationDone := invocationDone || done;
      }
      assert Quiescent(View());
    }

    /** It is time to start processing telemetry from a new invocation. */
    method OpenInvocation()
      requires CanOpen(View())
      modifies this
      ensures View() == OpenNext(old(View())) && inputs == old(inputs)
    {
      var invokeEvent := invokeEventQueue[0];
      invokeEventQueue := invokeEventQueue[1..];
      var held := functionSpansBuffer;
      functionSpansBuffer := [];
      trace := trace + [HandledSpans(openings, held), HandledSpans(openings, invokeEvent.spans)];
      invocation := Some(EventMerge.OpenInvocation(openings, invokeEvent.event, false, false));
      openings := openings + 1;
    }

    /** Pops the next event and acts on it; tells whether it was a runtime-done event processed normally. */
    method TakeEvent() returns (done: bool)
      requires CanTake(View())
      modifies this
      ensures View() == TakeNext(old(View())) && inputs == old(inputs)
      ensures done <==> DoneSince(old(View()), View())
    {
      TakeCounts(View());
      done := false;
      if !initHandlingStarted {
        TakeBeforeInit();
      } else if !initHandled {
        TakeDuringInit();
      } else {
        var e := telemetryEventQueue[0];
        telemetryEventQueue := telemetryEventQueue[1..];
        if e.record.PlatformRuntimeDone? {
          done := true;
        }
        trace := trace + [Handled(e, OnInvocation(invocation.value.ordinal))];
        invocation := Some(invocation.value.After(e));
        if invocation.value.reported {
          invocation := None;
        }
      }
    }

    /** No init start has been seen yet. */
    method TakeBeforeInit()
      requires CanTake(View()) && !initHandlingStarted
      modifies this
      ensures View() == TakeNext(old(View())) && inputs == old(inputs)
    {
      var e := telemetryEventQueue[0];
      telemetryEventQueue := telemetryEventQueue[1..];
      if e.record.PlatformInitStart? {
        if halfProcessedEventBuffer != [] {
          var events := halfProcessedEventBuffer;
          halfProcessedEventBuffer := [];
          ProcessDegraded(invocation.value.invoke.context, events);
        }
        initHandlingStarted := true;
        halfProcessedEventBuffer := halfProcessedEventBuffer + [e];
      } else {
        halfProcessedEventBuffer := halfProcessedEventBuffer + [e];
      }
    }

    /** An init start has been seen, but not yet the start of the open invocation after it. */
    method TakeDuringInit()
      requires CanTake(View()) && initHandlingStarted && !initHandled
      modifies this
      ensures View() == TakeNext(old(View())) && inputs == old(inputs)
    {
      var inv := invocation.value;
      var e := telemetryEventQueue[0];
      telemetryEventQueue := telemetryEventQueue[1..];
      var events := halfProcessedEventBuffer;
      if e.record.PlatformInitStart? {
        halfProcessedEventBuffer := [];
        ProcessDegraded(inv.invoke.context, events);
        halfProcessedEventBuffer := halfProcessedEventBuffer + [e];
      } else if e.record == PlatformStart(inv.invoke.requestId) {
        initHandled := true;
        replayEnd := |EventTrace(trace)| + |events|;
        telemetryEventQueue := [e] + telemetryEventQueue;
        halfProcessedEventBuffer := [];
        ProcessBuffered(events);
      } else {
        halfProcessedEventBuffer := halfProcessedEventBuffer + [e];
      }
    }

    /** The buffered init events, on the open invocation. */
    method ProcessBuffered(events: seq<Event>)
      requires invocation.Some?
      modifies this`invocation, this`trace
      ensures invocation == Some(AfterAll(old(invocation).value, events))
      ensures trace == old(trace) + HandleAll(events, OnInvocation(old(invocation).value.ordinal))
    {
      ghost var how := OnInvocation(invocation.value.ordinal);
      for i := 0 to |events|
        invariant invocation.Some? && invocation.value.ordinal == old(invocation).value.ordinal
        invariant AfterAll(invocation.value, events[i..]) == AfterAll(old(invocation).value, events)
        invariant trace == old(trace) + HandleAll(events[..i], how)
      {
        assert events[i..][1..] == events[i + 1..];
        trace := trace + [Handled(events[i], OnInvocation(invocation.value.ordinal))];
        invocation := Some(invocation.value.After(events[i]));
        assert HandleAll(events[..i + 1], how) == HandleAll(events[..i], how) + [Handled(events[i], how)];
      }
      assert events[..|events|] == events;
    }

    /** `process_in_degraded_mode` */
    method ProcessDegraded(context: FunctionContext, events: seq<Event>)
      modifies this`chunks, this`trace
      ensures chunks == old(chunks) + 1
      ensures trace == old(trace) + HandleAll(events, Degraded(old(chunks), context))
    {
      ghost var how := Degraded(chunks, context);
      for i := 0 to |events|
        invariant chunks == old(chunks)
        invariant trace == old(trace) + HandleAll(events[..i], how)
      {
        trace := trace + [Handled(events[i], how)];
        assert HandleAll(events[..i + 1], how) == HandleAll(events[..i], how) + [Handled(events[i], how)];
      }
      assert events[..|events|] == events;
      chunks := chunks + 1;
    }
  }
}
