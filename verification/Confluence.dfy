/** The outcome of merging depends only on what arrives on each channel, not on how the channels
    interleave or how the events are batched (src/telemetry/telemetry_service.rs). */
module Confluence {
  import opened Sequences
  import opened Telemetry
  import opened EventMerge

  // ---------------------------------------------------------------------------
  // States that differ only in what happened to function spans.

  function WithoutSpans(q: seq<QueuedInvoke>): seq<InvokeEvent> {
    seq(|q|, i requires 0 <= i < |q| => q[i].event)
  }

  ghost predicate SameButSpans(s: State, t: State) {
    && WithoutSpans(s.invokeEventQueue) == WithoutSpans(t.invokeEventQueue)
    && EventTrace(s.trace) == EventTrace(t.trace)
    && s == t.(invokeEventQueue := s.invokeEventQueue, functionSpansBuffer := s.functionSpansBuffer, trace := s.trace)
  }

  lemma {:induction false} OnlySpans(trace: seq<Action>, spans: seq<Action>)
    requires forall a :: a in spans ==> a.HandledSpans?
    ensures EventTrace(trace + spans) == EventTrace(trace)
  {
    if spans == [] {
      assert trace + spans == trace;
    } else {
      assert (trace + spans)[..|trace + spans| - 1] == trace + spans[..|spans| - 1];
      OnlySpans(trace, spans[..|spans| - 1]);
      assert Last(trace + spans) == Last(spans) && Last(spans) in spans;
      assert EventTrace(trace) + [] == EventTrace(trace);
    }
  }

  lemma OpenSame(s: State, t: State)
    requires SameButSpans(s, t) && CanOpen(s)
    ensures CanOpen(t) && SameButSpans(OpenNext(s), OpenNext(t))
  {
    var q, r := s.invokeEventQueue, t.invokeEventQueue;
    assert |q| == |WithoutSpans(q)| == |WithoutSpans(r)| == |r|;
    assert q[0].event == WithoutSpans(q)[0] == r[0].event;
    assert WithoutSpans(q[1..]) == WithoutSpans(q)[1..] && WithoutSpans(r[1..]) == WithoutSpans(r)[1..];
    OnlySpans(s.trace, [HandledSpans(s.openings, s.functionSpansBuffer), HandledSpans(s.openings, q[0].spans)]);
    OnlySpans(t.trace, [HandledSpans(t.openings, t.functionSpansBuffer), HandledSpans(t.openings, r[0].spans)]);
  }

  /** Taking an event only ever adds handled events to the trace, and the open invocation is what
      processing those on it makes of it. */
  lemma TakeAdds(s: State) returns (es: seq<Event>, how: Treatment)
    requires CanTake(s)
    ensures TakeNext(s).trace == s.trace + HandleAll(es, how)
    ensures TakeNext(s).invokeEventQueue == s.invokeEventQueue
    ensures TakeNext(s).functionSpansBuffer == s.functionSpansBuffer
    ensures TakeNext(s).openings == s.openings
    ensures how.Degraded? ==> TakeNext(s).invocation == s.invocation && !(s.initHandlingStarted && s.initHandled)
    ensures how.OnInvocation? && es != [] ==> TakeNext(s).initHandled
    ensures how.OnInvocation? ==> how.ordinal == s.invocation.value.ordinal
    ensures how.OnInvocation? && TakeNext(s).invocation.Some? ==>
              TakeNext(s).invocation.value == AfterAll(s.invocation.value, es)
  {
    var inv, e := s.invocation.value, s.telemetryEventQueue[0];
    es, how := [], OnInvocation(inv.ordinal);
    assert s.trace + HandleAll(es, how) == s.trace;
    if s.initHandlingStarted && s.initHandled {
      es := [e];
      assert HandleAll([e], how) == [Handled(e, how)];
      assert AfterAll(inv, [e]) == AfterAll(inv.After(e), []);
    } else if e.record.PlatformInitStart? && (s.initHandlingStarted || s.halfProcessedEventBuffer != []) {
      es, how := s.halfProcessedEventBuffer, Degraded(s.chunks, inv.invoke.context);
    } else if s.initHandlingStarted && e.record == PlatformStart(inv.invoke.requestId) {
      es := s.halfProcessedEventBuffer;
    }
  }

  lemma AfterAllKeepsOrdinal(inv: OpenInvocation, es: seq<Event>)
    ensures AfterAll(inv, es).ordinal == inv.ordinal
    decreases es
  {
    if es != [] {
      AfterAllKeepsOrdinal(inv.After(es[0]), es[1..]);
    }
  }

  /** What taking an event does is independent of the spans. */
  lemma TakeIgnoresSpans(s: State, q: seq<QueuedInvoke>, held: seq<ResourceSpans>, trace: seq<Action>, es: seq<Event>,
                         how: Treatment)
    requires CanTake(s) && TakeNext(s).trace == s.trace + HandleAll(es, how)
    requires |EventTrace(trace)| == |EventTrace(s.trace)|
    ensures var t := s.(invokeEventQueue := q, functionSpansBuffer := held, trace := trace);
            TakeNext(t) == TakeNext(s).(invokeEventQueue := q, functionSpansBuffer := held,
                                        trace := trace + HandleAll(es, how))
  {
    var t := s.(invokeEventQueue := q, functionSpansBuffer := held, trace := trace);
    assert TakeNext(s).trace[|s.trace|..] == HandleAll(es, how);
    if !(s.initHandlingStarted && !s.initHandled) {
      var es', how' := TakeAdds(t);
    } else if s.telemetryEventQueue[0].record == PlatformStart(s.invocation.value.invoke.requestId) {
      StartIgnoresSpans(s, q, held, trace);
    }
  }

  lemma StartIgnoresSpans(s: State, q: seq<QueuedInvoke>, held: seq<ResourceSpans>, trace: seq<Action>)
    requires s.invocation.Some? && |EventTrace(trace)| == |EventTrace(s.trace)|
    ensures var t := s.(invokeEventQueue := q, functionSpansBuffer := held, trace := trace);
            var added := HandleAll(s.halfProcessedEventBuffer, OnInvocation(s.invocation.value.ordinal));
            StartNormalProcessing(t) == StartNormalProcessing(s).(invokeEventQueue := q, functionSpansBuffer := held,
                                                                  trace := trace + added)
  {}

  lemma TakeSame(s: State, t: State)
    requires SameButSpans(s, t) && CanTake(s)
    ensures CanTake(t) && SameButSpans(TakeNext(s), TakeNext(t))
  {
    var es, how := TakeAdds(s);
    TakeIgnoresSpans(s, t.invokeEventQueue, t.functionSpansBuffer, t.trace, es, how);
    EventTraceAppend(s.trace, HandleAll(es, how));
    EventTraceAppend(t.trace, HandleAll(es, how));
  }

  lemma StepSame(s: State, t: State)
    requires SameButSpans(s, t)
    ensures Quiescent(s) <==> Quiescent(t)
    ensures !Quiescent(s) ==> SameButSpans(Step(s), Step(t))
  {
    assert |s.invokeEventQueue| == |WithoutSpans(s.invokeEventQueue)| == |t.invokeEventQueue|;
    if CanOpen(s) {
      OpenSame(s, t);
    } else if CanTake(s) {
      TakeSame(s, t);
    }
  }

  lemma {:induction false} QuiesceSame(s: State, t: State)
    requires SameButSpans(s, t)
    ensures SameButSpans(Quiesce(s), Quiesce(t))
    decreases !s.initHandled, |s.telemetryEventQueue|, |s.invokeEventQueue|
  {
    StepSame(s, t);
    if !Quiescent(s) {
      QuiesceSame(Step(s), Step(t));
    }
  }

  lemma ReceiveSpansSame(s: State, rs: seq<ResourceSpans>)
    ensures SameButSpans(ReceiveSpans(s, rs), s)
  {
    if s.invokeEventQueue != [] {
      assert WithoutSpans(ReceiveSpans(s, rs).invokeEventQueue) == WithoutSpans(s.invokeEventQueue);
    } else if s.invocation.Some? && !s.invocation.value.runtimeDone {
      OnlySpans(s.trace, [HandledSpans(s.invocation.value.ordinal, rs)]);
    }
  }

  lemma PushSame(s: State, t: State, e: InvokeEvent, es: seq<Event>)
    requires SameButSpans(s, t)
    ensures SameButSpans(PushInvoke(s, e), PushInvoke(t, e))
    ensures SameButSpans(PushTelemetry(s, es), PushTelemetry(t, es))
  {
    assert WithoutSpans(PushInvoke(s, e).invokeEventQueue) == WithoutSpans(s.invokeEventQueue) + [e];
    assert WithoutSpans(PushInvoke(t, e).invokeEventQueue) == WithoutSpans(t.invokeEventQueue) + [e];
  }

  // ---------------------------------------------------------------------------
  // Running to quiescence commutes with appending to either queue.

  lemma {:induction false} QuiesceIsQuiescent(s: State)
    ensures Quiescent(Quiesce(s)) && Quiesce(s).shutdownFlushStarted == s.shutdownFlushStarted
    decreases !s.initHandled, |s.telemetryEventQueue|, |s.invokeEventQueue|
  {
    if !Quiescent(s) {
      QuiesceIsQuiescent(Step(s));
    }
  }

  lemma StepCommutesWithTelemetry(s: State, es: seq<Event>)
    requires !Quiescent(s)
    ensures !Quiescent(PushTelemetry(s, es)) && Step(PushTelemetry(s, es)) == PushTelemetry(Step(s), es)
  {
    if !CanOpen(s) {
      var q := s.telemetryEventQueue;
      assert (q + es)[1..] == q[1..] + es;
    }
  }

  lemma StepCommutesWithInvoke(s: State, e: InvokeEvent)
    requires !Quiescent(s)
    ensures !Quiescent(PushInvoke(s, e)) && Step(PushInvoke(s, e)) == PushInvoke(Step(s), e)
  {
    if CanOpen(s) {
      var q := s.invokeEventQueue;
      assert (q + [QueuedInvoke(e, [])])[1..] == q[1..] + [QueuedInvoke(e, [])];
    }
  }

  lemma {:induction false} QuiesceCommutesWithTelemetry(s: State, es: seq<Event>)
    ensures Quiesce(PushTelemetry(Quiesce(s), es)) == Quiesce(PushTelemetry(s, es))
    decreases !s.initHandled, |s.telemetryEventQueue|, |s.invokeEventQueue|
  {
    if !Quiescent(s) {
      StepCommutesWithTelemetry(s, es);
      QuiesceCommutesWithTelemetry(Step(s), es);
    }
  }

  lemma {:induction false} QuiesceCommutesWithInvoke(s: State, e: InvokeEvent)
    ensures Quiesce(PushInvoke(Quiesce(s), e)) == Quiesce(PushInvoke(s, e))
    decreases !s.initHandled, |s.telemetryEventQueue|, |s.invokeEventQueue|
  {
    if !Quiescent(s) {
      StepCommutesWithInvoke(s, e);
      QuiesceCommutesWithInvoke(Step(s), e);
    }
  }

  // ---------------------------------------------------------------------------
  // Confluence.

  /** Everything queued before anything is processed. */
  function AllQueued(invokes: seq<InvokeEvent>, events: seq<Event>): State {
    INITIAL.(invokeEventQueue := seq(|invokes|, i requires 0 <= i < |invokes| => QueuedInvoke(invokes[i], [])),
             telemetryEventQueue := events)
  }

  lemma PushQueued(invokes: seq<InvokeEvent>, events: seq<Event>, e: InvokeEvent, es: seq<Event>)
    ensures PushInvoke(AllQueued(invokes, events), e) == AllQueued(invokes + [e], events)
    ensures PushTelemetry(AllQueued(invokes, events), es) == AllQueued(invokes, events + es)
  {
    assert PushInvoke(AllQueued(invokes, events), e).invokeEventQueue
        == AllQueued(invokes + [e], events).invokeEventQueue;
  }

  /** Whatever the interleaving, the batching and the spans, a run ends where processing everything in
      one go ends. */
  lemma {:induction false} RunIsOneShot(inputs: seq<Input>)
    ensures SameButSpans(Run(inputs), Quiesce(AllQueued(InvokesOf(inputs), EventsOf(inputs))))
    ensures !Run(inputs).shutdownFlushStarted
  {
    if inputs != [] {
      var before := Run(inputs[..|inputs| - 1]);
      var invokes, events := InvokesOf(inputs[..|inputs| - 1]), EventsOf(inputs[..|inputs| - 1]);
      var queued := AllQueued(invokes, events);
      RunIsOneShot(inputs[..|inputs| - 1]);
      assert invokes + [] == invokes && events + [] == events;
      match Last(inputs)
      case Invoked(e) =>
        PushSame(before, Quiesce(queued), e, []);
        QuiesceSame(PushInvoke(before, e), PushInvoke(Quiesce(queued), e));
        QuiesceCommutesWithInvoke(queued, e);
        QuiesceIsQuiescent(PushInvoke(before, e));
        PushQueued(invokes, events, e, []);
      case TelemetryReceived(es) =>
        PushSame(before, Quiesce(queued), InvokeEvent("", FunctionContext(0), [], [], false), es);
        QuiesceSame(PushTelemetry(before, es), PushTelemetry(Quiesce(queued), es));
        QuiesceCommutesWithTelemetry(queued, es);
        QuiesceIsQuiescent(PushTelemetry(before, es));
        PushQueued(invokes, events, InvokeEvent("", FunctionContext(0), [], [], false), es);
      case SpansReceived(rs) =>
        ReceiveSpansSame(before, rs);
    }
  }

  /** Two runs with the same invoke events and the same telemetry events, each in order, end in the same
      state up to function spans: same queues, flags and open invocation, same events processed, and
      each event on the same invocation or in the same degraded chunk. */
  lemma Confluence(a: seq<Input>, b: seq<Input>)
    requires InvokesOf(a) == InvokesOf(b) && EventsOf(a) == EventsOf(b)
    ensures SameButSpans(Run(a), Run(b))
  {
    RunIsOneShot(a);
    RunIsOneShot(b);
  }

  lemma {:induction false} NoSpansStaysClean(inputs: seq<Input>)
    requires forall i :: i in inputs ==> !i.SpansReceived?
    ensures Run(inputs) == Quiesce(AllQueued(InvokesOf(inputs), EventsOf(inputs)))
  {
    if inputs != [] {
      var front := inputs[..|inputs| - 1];
      var queued := AllQueued(InvokesOf(front), EventsOf(front));
      NoSpansStaysClean(front);
      RunIsOneShot(front);
      assert InvokesOf(front) + [] == InvokesOf(front) && EventsOf(front) + [] == EventsOf(front);
      match Last(inputs)
      case Invoked(e) =>
        QuiesceCommutesWithInvoke(queued, e);
        PushQueued(InvokesOf(front), EventsOf(front), e, []);
      case TelemetryReceived(es) =>
        QuiesceCommutesWithTelemetry(queued, es);
        PushQueued(InvokesOf(front), EventsOf(front), InvokeEvent("", FunctionContext(0), [], [], false), es);
    }
  }

  /** Without function spans the two runs end in exactly the same state, output included. */
  lemma ConfluenceWithoutSpans(a: seq<Input>, b: seq<Input>)
    requires forall i :: i in a + b ==> !i.SpansReceived?
    requires InvokesOf(a) == InvokesOf(b) && EventsOf(a) == EventsOf(b)
    ensures Run(a) == Run(b)
  {
    NoSpansStaysClean(a);
    NoSpansStaysClean(b);
  }
}
