/** Function spans reach an invocation through three holding places without loss, duplication or reordering,
    and never after the runtime of that invocation is done (src/telemetry/telemetry_service.rs). */
module SpanRouting {
  import opened Sequences
  import opened Telemetry
  import opened EventMerge
  import opened Confluence

  /** The spans that wait with queued invoke events. */
  function QueuedSpans(q: seq<QueuedInvoke>): seq<ResourceSpans> {
    if q == [] then [] else q[0].spans + QueuedSpans(q[1..])
  }

  lemma {:induction false} QueuedSpansAppend(q: seq<QueuedInvoke>, r: seq<QueuedInvoke>)
    ensures QueuedSpans(q + r) == QueuedSpans(q) + QueuedSpans(r)
  {
    if q == [] {
      assert q + r == r;
    } else {
      assert (q + r)[1..] == q[1..] + r;
      QueuedSpansAppend(q[1..], r);
    }
  }

  lemma QueuedSpansOne(x: QueuedInvoke)
    ensures QueuedSpans([x]) == x.spans
  {
    assert QueuedSpans([x]) == x.spans + QueuedSpans([]);
  }

  /** Some runtime-done event was processed on invocation j. */
  ghost predicate DoneOn(trace: seq<Action>, j: nat) {
    exists a :: a in trace && a.Handled? && a.how == OnInvocation(j) && a.event.record.PlatformRuntimeDone?
  }

  ghost predicate NoSpansAfterDone(trace: seq<Action>) {
    forall b :: 0 <= b < |trace| && trace[b].HandledSpans? ==> !DoneOn(trace[..b], trace[b].ordinal)
  }

  ghost predicate OnlyOpened(trace: seq<Action>, openings: nat) {
    forall a :: a in trace ==>
      && (a.HandledSpans? ==> a.ordinal < openings)
      && (a.Handled? && a.how.OnInvocation? ==> a.how.ordinal < openings)
  }

  ghost predicate SpansOrdered(s: State, arrived: seq<ResourceSpans>) {
    && SpanTrace(s.trace) + s.functionSpansBuffer + QueuedSpans(s.invokeEventQueue) == arrived
    && (s.invocation.Some? && !s.invocation.value.runtimeDone ==> s.functionSpansBuffer == [])
  }

  ghost predicate SpansBeforeDone(s: State) {
    && NoSpansAfterDone(s.trace)
    && OnlyOpened(s.trace, s.openings)
    && (s.invocation.Some? ==>
          && s.invocation.value.ordinal < s.openings
          && (s.invocation.value.runtimeDone <==> DoneOn(s.trace, s.invocation.value.ordinal)))
  }

  // ---------------------------------------------------------------------------

  lemma OpenRoutes(s: State, arrived: seq<ResourceSpans>)
    requires SpansOrdered(s, arrived) && CanOpen(s)
    ensures SpansOrdered(OpenNext(s), arrived)
  {
    var q, held := s.invokeEventQueue, s.functionSpansBuffer;
    var added := [HandledSpans(s.openings, held), HandledSpans(s.openings, q[0].spans)];
    SpanTraceAppend(s.trace, added);
    assert added[..1] == [HandledSpans(s.openings, held)] && added[..1][..0] == [];
    assert SpanTrace(added[..1]) == SpanTrace([]) + held == held;
    assert SpanTrace(added) == held + q[0].spans;
    Regroup(SpanTrace(s.trace), held + q[0].spans, [], QueuedSpans(q[1..]), held, QueuedSpans(q));
  }

  lemma {:induction false} AfterAllDone(inv: OpenInvocation, es: seq<Event>)
    ensures AfterAll(inv, es).ordinal == inv.ordinal
    ensures AfterAll(inv, es).runtimeDone <==> inv.runtimeDone || exists e :: e in es && e.record.PlatformRuntimeDone?
    decreases es
  {
    if es != [] {
      AfterAllDone(inv.After(es[0]), es[1..]);
      assert forall e :: e in es <==> e == es[0] || e in es[1..];
    }
  }

  lemma TakeRoutes(s: State, arrived: seq<ResourceSpans>)
    requires SpansOrdered(s, arrived) && CanTake(s)
    ensures SpansOrdered(TakeNext(s), arrived)
  {
    var es, how := TakeAdds(s);
    SpanTraceAppend(s.trace, HandleAll(es, how));
    HandleAllTraces(es, how);
    assert SpanTrace(s.trace) + [] == SpanTrace(s.trace);
    AfterAllDone(s.invocation.value, es);
  }

  lemma ReceiveRoutes(s: State, arrived: seq<ResourceSpans>, rs: seq<ResourceSpans>)
    requires SpansOrdered(s, arrived)
    ensures SpansOrdered(ReceiveSpans(s, rs), arrived + rs)
  {
    InOrderWith(SpanTrace(s.trace), s.functionSpansBuffer, QueuedSpans(s.invokeEventQueue), rs);
    if s.invokeEventQueue != [] {
      QueueTakes(s.invokeEventQueue, rs);
    } else if s.invocation.Some? && !s.invocation.value.runtimeDone {
      TraceTakes(s.trace, HandledSpans(s.invocation.value.ordinal, rs));
    }
  }

  /** Wherever something new goes, it goes last. */
  lemma InOrderWith<T>(a: seq<T>, b: seq<T>, c: seq<T>, more: seq<T>)
    ensures a + b + (c + more) == a + b + c + more
    ensures c == [] ==> a + (b + more) + c == a + b + c + more
    ensures b == [] && c == [] ==> (a + more) + b + c == a + b + c + more
  {}

  lemma QueueTakes(q: seq<QueuedInvoke>, rs: seq<ResourceSpans>)
    requires q != []
    ensures QueuedSpans(q[|q| - 1 := Last(q).(spans := Last(q).spans + rs)]) == QueuedSpans(q) + rs
  {
    var front, last, more := q[..|q| - 1], Last(q), Last(q).(spans := Last(q).spans + rs);
    assert q == front + [last] && q[|q| - 1 := more] == front + [more];
    QueuedSpansAppend(front, [last]);
    QueuedSpansAppend(front, [more]);
    QueuedSpansOne(last);
    QueuedSpansOne(more);
    Associative(QueuedSpans(front), last.spans, rs);
  }

  lemma TraceTakes(trace: seq<Action>, action: Action)
    requires action.HandledSpans?
    ensures SpanTrace(trace + [action]) == SpanTrace(trace) + action.spans
  {
    assert (trace + [action])[..|trace|] == trace;
  }

  lemma PushRoutes(s: State, arrived: seq<ResourceSpans>, e: InvokeEvent, es: seq<Event>)
    requires SpansOrdered(s, arrived)
    ensures SpansOrdered(PushInvoke(s, e), arrived) && SpansOrdered(PushTelemetry(s, es), arrived)
  {
    QueuedSpansAppend(s.invokeEventQueue, [QueuedInvoke(e, [])]);
    QueuedSpansOne(QueuedInvoke(e, []));
  }

  // ---------------------------------------------------------------------------

  lemma AppendKeepsDone(trace: seq<Action>, added: seq<Action>)
    requires NoSpansAfterDone(trace)
    requires forall b :: 0 <= b < |added| && added[b].HandledSpans? ==> !DoneOn(trace + added[..b], added[b].ordinal)
    ensures NoSpansAfterDone(trace + added)
  {
    var all := trace + added;
    forall b | 0 <= b < |all| && all[b].HandledSpans? ensures !DoneOn(all[..b], all[b].ordinal) {
      if b < |trace| {
        assert all[..b] == trace[..b];
      } else {
        assert all[..b] == trace + added[..b - |trace|];
      }
    }
  }

  lemma OpenBeforeDone(s: State)
    requires SpansBeforeDone(s) && CanOpen(s)
    ensures SpansBeforeDone(OpenNext(s))
  {
    var added := [HandledSpans(s.openings, s.functionSpansBuffer),
                  HandledSpans(s.openings, s.invokeEventQueue[0].spans)];
    AppendKeepsDone(s.trace, added);
  }

  lemma TakeBeforeDone(s: State)
    requires SpansBeforeDone(s) && CanTake(s)
    ensures SpansBeforeDone(TakeNext(s))
  {
    var es, how := TakeAdds(s);
    var j := s.invocation.value.ordinal;
    AppendKeepsDone(s.trace, HandleAll(es, how));
    if how.OnInvocation? {
      AfterAllDone(s.invocation.value, es);
      DoneOnHandled(s.trace, es, j);
    } else {
      DoneElsewhere(s.trace, es, how, j);
    }
  }

  lemma DoneElsewhere(trace: seq<Action>, es: seq<Event>, how: Treatment, j: nat)
    requires how != OnInvocation(j)
    ensures DoneOn(trace + HandleAll(es, how), j) <==> DoneOn(trace, j)
  {
    var all := trace + HandleAll(es, how);
    assert forall a :: a in trace ==> a in all;
    assert forall a :: a in all && a.Handled? && a.how == OnInvocation(j) ==> a in trace;
  }

  lemma DoneOnHandled(trace: seq<Action>, es: seq<Event>, j: nat)
    ensures DoneOn(trace + HandleAll(es, OnInvocation(j)), j)
       <==> DoneOn(trace, j) || exists e :: e in es && e.record.PlatformRuntimeDone?
  {
    var added := HandleAll(es, OnInvocation(j));
    if e :| e in es && e.record.PlatformRuntimeDone? {
      var i :| 0 <= i < |es| && es[i] == e;
      assert added[i] in trace + added;
    }
    if a :| a in trace && a.Handled? && a.how == OnInvocation(j) && a.event.record.PlatformRuntimeDone? {
      assert a in trace + added;
    }
    if a :| a in added && a.event.record.PlatformRuntimeDone? {
      assert a.event in es;
    }
  }

  // ---------------------------------------------------------------------------

  lemma QuiesceRoutes(s: State, arrived: seq<ResourceSpans>)
    requires SpansOrdered(s, arrived) && SpansBeforeDone(s)
    ensures SpansOrdered(Quiesce(s), arrived) && SpansBeforeDone(Quiesce(s))
  {
    forall t | SpansOrdered(t, arrived) && SpansBeforeDone(t) && !Quiescent(t)
      ensures SpansOrdered(Step(t), arrived) && SpansBeforeDone(Step(t))
    {
      StepRoutes(t, arrived);
    }
    QuiescePreserves(s, t => SpansOrdered(t, arrived) && SpansBeforeDone(t));
  }

  lemma StepRoutes(s: State, arrived: seq<ResourceSpans>)
    requires SpansOrdered(s, arrived) && SpansBeforeDone(s) && !Quiescent(s)
    ensures SpansOrdered(Step(s), arrived) && SpansBeforeDone(Step(s))
  {
    if CanOpen(s) {
      OpenRoutes(s, arrived);
      OpenBeforeDone(s);
    } else {
      TakeRoutes(s, arrived);
      TakeBeforeDone(s);
    }
  }

  lemma ReceiveBeforeDone(s: State, rs: seq<ResourceSpans>)
    requires SpansBeforeDone(s)
    ensures SpansBeforeDone(ReceiveSpans(s, rs))
  {
    if s.invokeEventQueue == [] && s.invocation.Some? && !s.invocation.value.runtimeDone {
      var added := [HandledSpans(s.invocation.value.ordinal, rs)];
      assert added[..0] == [] && s.trace + [] == s.trace;
      AppendKeepsDone(s.trace, added);
      var all := s.trace + added;
      assert forall a :: a in all && a.Handled? <==> a in s.trace && a.Handled?;
    }
  }

  /** In every run, the spans processed, then those held by the service, then those waiting with queued
      invocations, are all the spans that arrived, in order; and no invocation is given spans after its
      runtime is done. */
  lemma {:induction false} SpanFifo(inputs: seq<Input>)
    ensures SpansOrdered(Run(inputs), SpansOf(inputs))
    ensures SpansBeforeDone(Run(inputs))
  {
    if inputs != [] {
      var front := inputs[..|inputs| - 1];
      var s, arrived := Run(front), SpansOf(front);
      SpanFifo(front);
      assert arrived + [] == arrived;
      match Last(inputs)
      case Invoked(e) =>
        PushRoutes(s, arrived, e, []);
        QuiesceRoutes(PushInvoke(s, e), arrived);
      case TelemetryReceived(es) =>
        PushRoutes(s, arrived, InvokeEvent("", FunctionContext(0), [], [], false), es);
        QuiesceRoutes(PushTelemetry(s, es), arrived);
      case SpansReceived(rs) =>
        ReceiveRoutes(s, arrived, rs);
        ReceiveBeforeDone(s, rs);
    }
  }
}
