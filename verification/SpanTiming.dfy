/** Which function spans an invocation is given ahead of one of its events, in terms of what arrived
    (src/telemetry/telemetry_service.rs). */
module SpanTiming {
  import opened Sequences
  import opened Telemetry
  import opened EventMerge
  import opened Attribution
  import opened InvocationEvents
  import opened SpanAttribution
  import Confluence

  /** The spans given to invocation j ahead of the event that is number c of all those processed. */
  function SpansAhead(trace: seq<Action>, j: nat, c: nat): seq<ResourceSpans> {
    if trace == [] then []
    else
      var front, a := trace[..|trace| - 1], Last(trace);
      SpansAhead(front, j, c)
      + if a.HandledSpans? && a.ordinal == j && |EventTrace(front)| <= c then a.spans else []
  }

  /** Event c, which goes to invocation j, can be processed: it has arrived, and so has the invoke event, and normal
      processing has started. */
  ghost predicate Ready(inputs: seq<Input>, j: nat, c: nat) {
    c < |EventsOf(inputs)| && j < |InvokesOf(inputs)| && StartArrived(inputs)
  }

  /** The spans that arrive for invocation j before event c can be processed on it. */
  ghost function SpansBefore(inputs: seq<Input>, j: nat, c: nat): seq<ResourceSpans> {
    if inputs == [] then []
    else
      var front, input := inputs[..|inputs| - 1], Last(inputs);
      SpansBefore(front, j, c)
      + if input.SpansReceived? && OwnerOf(front) == j && !Ready(front, j, c) then input.spans else []
  }

  // ---------------------------------------------------------------------------
  // The trace.

  lemma SpansAheadNext(trace: seq<Action>, a: Action, j: nat, c: nat)
    ensures SpansAhead(trace + [a], j, c)
         == SpansAhead(trace, j, c)
            + if a.HandledSpans? && a.ordinal == j && |EventTrace(trace)| <= c then a.spans else []
    ensures |EventTrace(trace + [a])| == |EventTrace(trace)| + if a.Handled? then 1 else 0
  {
    assert (trace + [a])[..|trace|] == trace;
  }

  /** So far all its spans are ahead of events to come. */
  lemma {:induction false} AllAhead(trace: seq<Action>, j: nat, c: nat)
    requires |EventTrace(trace)| <= c
    ensures SpansAhead(trace, j, c) == SpansFor(trace, j)
  {
    if trace != [] {
      AllAhead(trace[..|trace| - 1], j, c);
    }
  }

  /** What comes later does not get ahead of an event that has been processed. */
  lemma {:induction false} AheadStays(trace: seq<Action>, added: seq<Action>, j: nat, c: nat)
    requires c < |EventTrace(trace)|
    ensures SpansAhead(trace + added, j, c) == SpansAhead(trace, j, c)
    ensures EventTrace(trace) <= EventTrace(trace + added)
  {
    if added == [] {
      assert trace + added == trace;
    } else {
      var front := added[..|added| - 1];
      AheadStays(trace, front, j, c);
      SpansAheadNext(trace + front, Last(added), j, c);
      assert trace + added == trace + front + [Last(added)];
      assert (trace + added)[..|trace + front|] == trace + front;
    }
  }

  lemma {:induction false} EventsStayBehind(trace: seq<Action>, es: seq<Event>, how: Treatment, j: nat, c: nat)
    ensures SpansAhead(trace + HandleAll(es, how), j, c) == SpansAhead(trace, j, c)
  {
    if es == [] {
      assert trace + HandleAll(es, how) == trace;
    } else {
      var front := es[..|es| - 1];
      EventsStayBehind(trace, front, how, j, c);
      SpansAheadNext(trace + HandleAll(front, how), Handled(Last(es), how), j, c);
      assert trace + HandleAll(es, how) == trace + HandleAll(front, how) + [Handled(Last(es), how)];
    }
  }

  lemma HandledOnStays(trace: seq<Action>, added: seq<Action>, j: nat, c: nat)
    requires c < |EventTrace(trace)|
    ensures HandledOn(trace + added, j, c) <==> HandledOn(trace, j, c)
    ensures SpansAhead(trace + added, j, c) == SpansAhead(trace, j, c)
  {
    AheadStays(trace, added, j, c);
  }

  // ---------------------------------------------------------------------------
  // While queued telemetry is processed, an invocation is given spans only when it is opened.

  ghost predicate SpansFirst(s: State, j: nat, c: nat) {
    && (s.invocation.Some? ==> s.invocation.value.ordinal < s.openings)
    && (HandledOn(s.trace, j, c) ==> j < s.openings && SpansAhead(s.trace, j, c) == SpansFor(s.trace, j))
  }

  lemma OpenKeepsFirst(s: State, j: nat, c: nat)
    requires SpansFirst(s, j, c) && CanOpen(s)
    ensures SpansFirst(OpenNext(s), j, c)
  {
    var n, q := s.openings, s.invokeEventQueue[0];
    var a, b := HandledSpans(n, s.functionSpansBuffer), HandledSpans(n, q.spans);
    assert OpenNext(s).trace == s.trace + [a] + [b];
    SpansForNext(s.trace, a, j);
    SpansForNext(s.trace + [a], b, j);
    OnlySpansAdded(s.trace, a, b);
    if c < |EventTrace(s.trace)| {
      HandledOnStays(s.trace, [a], j, c);
      HandledOnStays(s.trace + [a], [b], j, c);
    }
  }

  lemma OnlySpansAdded(trace: seq<Action>, a: Action, b: Action)
    requires a.HandledSpans? && b.HandledSpans?
    ensures EventTrace(trace + [a]) == EventTrace(trace) && EventTrace(trace + [a] + [b]) == EventTrace(trace)
  {
    assert (trace + [a])[..|trace|] == trace && (trace + [a] + [b])[..|trace| + 1] == trace + [a];
  }

  lemma TakeKeepsFirst(s: State, j: nat, c: nat)
    requires SpansFirst(s, j, c) && CanTake(s)
    ensures SpansFirst(TakeNext(s), j, c)
  {
    var es, how := Confluence.TakeAdds(s);
    SpansForEvents(s.trace, es, how, j);
    EventsStayBehind(s.trace, es, how, j, c);
    if how.OnInvocation? && TakeNext(s).invocation.Some? {
      Confluence.AfterAllKeepsOrdinal(s.invocation.value, es);
    }
    if c < |EventTrace(s.trace)| {
      HandledOnStays(s.trace, HandleAll(es, how), j, c);
    } else {
      AllAhead(s.trace, j, c);
      EventTraceAppend(s.trace, HandleAll(es, how));
      HandleAllTraces(es, how);
    }
  }

  lemma {:induction false} QuiesceKeepsFirst(s: State, j: nat, c: nat)
    requires SpansFirst(s, j, c)
    ensures SpansFirst(Quiesce(s), j, c)
    decreases !s.initHandled, |s.telemetryEventQueue|, |s.invokeEventQueue|
  {
    if CanOpen(s) {
      OpenKeepsFirst(s, j, c);
      QuiesceKeepsFirst(EventMerge.Step(s), j, c);
    } else if CanTake(s) {
      TakeKeepsFirst(s, j, c);
      QuiesceKeepsFirst(EventMerge.Step(s), j, c);
    }
  }

  /** Processing only adds to the trace. */
  lemma {:induction false} QuiesceAdds(s: State) returns (added: seq<Action>)
    ensures Quiesce(s).trace == s.trace + added
    decreases !s.initHandled, |s.telemetryEventQueue|, |s.invokeEventQueue|
  {
    if Quiescent(s) {
      added := [];
    } else {
      var first := StepAdds(s);
      var rest := QuiesceAdds(EventMerge.Step(s));
      added := first + rest;
      Associative(s.trace, first, rest);
    }
  }

  lemma StepAdds(s: State) returns (added: seq<Action>)
    requires !Quiescent(s)
    ensures EventMerge.Step(s).trace == s.trace + added
  {
    if CanOpen(s) {
      added := [HandledSpans(s.openings, s.functionSpansBuffer),
                HandledSpans(s.openings, s.invokeEventQueue[0].spans)];
    } else {
      var es, how := Confluence.TakeAdds(s);
      added := HandleAll(es, how);
    }
  }

  // ---------------------------------------------------------------------------
  // When an event is processed.

  lemma {:induction false} OrdinalInPrefix(events: seq<Event>, all: seq<Event>, k: nat, p: nat, i: nat)
    requires events <= all && p <= |events| && i <= |events|
    ensures Ordinal(events, k, p, i) == Ordinal(all, k, p, i)
    decreases i
  {
    assert forall q :: 0 <= q < |events| ==> events[q] == all[q];
    assert ReportIn(events, k, p) <==> ReportIn(all, k, p);
    if i > p {
      OrdinalInPrefix(events, all, k, p, i - 1);
    }
  }

  /** An event on an invocation has been processed exactly when it was ready. */
  lemma HandledWhenReady(inputs: seq<Input>, k: nat, p: nat, j: nat, c: nat)
    requires Replayed(inputs, k, p) && c < |EventsOf(inputs)| && GoesOn(EventsOf(inputs), k, p, j, c)
    ensures HandledOn(EventMerge.Run(inputs).trace, j, c) <==> j < |InvokesOf(inputs)|
  {
    AttributionAfterReplay(inputs, k, p);
  }

  lemma ReadyIfHandled(inputs: seq<Input>, j: nat, c: nat) returns (k: nat, p: nat)
    requires HandledOn(EventMerge.Run(inputs).trace, j, c)
    ensures Ready(inputs, j, c)
    ensures Replayed(inputs, k, p) && GoesOn(EventsOf(inputs), k, p, j, c)
  {
    StartArrivedExactly(inputs);
    var s := RunInvariant(inputs);
    assert |EventsIn(EventTrace(s.trace))| == |EventTrace(s.trace)|;
    k, p := ReplayOf(inputs);
    AttributionAfterReplay(inputs, k, p);
    assert GoesOn(EventsOf(inputs), k, p, j, c);
  }

  lemma HandledIfReady(inputs: seq<Input>, more: seq<Input>, j: nat, c: nat)
    requires inputs <= more && Ready(inputs, j, c) && HandledOn(EventMerge.Run(more).trace, j, c)
    ensures HandledOn(EventMerge.Run(inputs).trace, j, c)
  {
    StartArrivedExactly(inputs);
    var k, p := ReplayOf(inputs);
    var k', p' := ReadyIfHandled(more, j, c);
    PrefixArrives(more, |inputs|);
    assert more[..|inputs|] == inputs;
    ReplayInPrefix(EventsOf(inputs), EventsOf(more), InvokesOf(more)[0].requestId, p, k);
    OneReplay(more, k, p, k', p');
    OrdinalInPrefix(EventsOf(inputs), EventsOf(more), k, p, c);
    HandledWhenReady(inputs, k, p, j, c);
  }

  lemma {:induction false} PrefixArrives(inputs: seq<Input>, m: nat)
    requires m <= |inputs|
    ensures InvokesOf(inputs[..m]) <= InvokesOf(inputs) && EventsOf(inputs[..m]) <= EventsOf(inputs)
  {
    if m < |inputs| {
      PrefixArrives(inputs[..|inputs| - 1], m);
      assert inputs[..|inputs| - 1][..m] == inputs[..m];
    } else {
      assert inputs[..m] == inputs;
    }
  }

  /** Once ready, always ready. */
  lemma ReadyStays(inputs: seq<Input>, j: nat, c: nat)
    requires inputs != [] && Ready(inputs[..|inputs| - 1], j, c)
    ensures Ready(inputs, j, c)
  {
    var front := inputs[..|inputs| - 1];
    StartArrivedExactly(front);
    var k, p := ReplayOf(front);
    ReplayStays(inputs, k, p);
    RunAfterReplay(inputs, k, p);
    StartArrivedExactly(inputs);
  }

  /** As long as the event is not ready, all spans are ahead of it. */
  lemma {:induction false} AllBefore(inputs: seq<Input>, j: nat, c: nat)
    requires inputs != [] ==> !Ready(inputs[..|inputs| - 1], j, c)
    ensures SpansBefore(inputs, j, c) == SpansTo(inputs, j)
  {
    if inputs != [] {
      var front := inputs[..|inputs| - 1];
      if front != [] && Ready(front[..|front| - 1], j, c) {
        ReadyStays(front, j, c);
      }
      AllBefore(front, j, c);
    }
  }

  // ---------------------------------------------------------------------------

  ghost predicate AheadExactly(inputs: seq<Input>, j: nat, c: nat) {
    HandledOn(EventMerge.Run(inputs).trace, j, c) ==>
      SpansAhead(EventMerge.Run(inputs).trace, j, c) == SpansBefore(inputs, j, c)
  }

  lemma ProcessAdds(s: State) returns (added: seq<Action>)
    ensures Process(s).trace == s.trace + added
  {
    if s.shutdownFlushStarted {
      added := [];
    } else {
      added := QuiesceAdds(s);
    }
  }

  lemma ProcessKeepsFirst(s: State, j: nat, c: nat)
    requires SpansFirst(s, j, c)
    ensures SpansFirst(Process(s), j, c)
  {
    if !s.shutdownFlushStarted {
      QuiesceKeepsFirst(s, j, c);
    }
  }

  /** Processing what has arrived. */
  lemma QuiesceAhead(inputs: seq<Input>, pushed: State, j: nat, c: nat)
    requires inputs != [] && AheadExactly(inputs[..|inputs| - 1], j, c)
    requires !Last(inputs).SpansReceived? && EventMerge.Run(inputs) == Process(pushed)
    requires var s := EventMerge.Run(inputs[..|inputs| - 1]);
             && pushed.trace == s.trace && pushed.openings == s.openings && pushed.invocation == s.invocation
    ensures AheadExactly(inputs, j, c)
  {
    var front := inputs[..|inputs| - 1];
    var added := ProcessAdds(pushed);
    if c < |EventTrace(pushed.trace)| {
      HandledOnStays(pushed.trace, added, j, c);
    } else if HandledOn(EventMerge.Run(inputs).trace, j, c) {
      RunCounts(front);
      ProcessKeepsFirst(pushed, j, c);
      SpansGiven(inputs, j);
      if Ready(front, j, c) {
        HandledIfReady(front, inputs, j, c);
      }
      AllBefore(inputs, j, c);
    }
  }

  lemma ReceiveAhead(inputs: seq<Input>, j: nat, c: nat)
    requires inputs != [] && AheadExactly(inputs[..|inputs| - 1], j, c) && Last(inputs).SpansReceived?
    ensures AheadExactly(inputs, j, c)
  {
    var front := inputs[..|inputs| - 1];
    var s, s' := EventMerge.Run(front), EventMerge.Run(inputs);
    var added := ReceiveAdds(s, Last(inputs).spans);
    if c < |EventTrace(s.trace)| {
      HandledOnStays(s.trace, added, j, c);
      if HandledOn(s.trace, j, c) {
        var k, p := ReadyIfHandled(front, j, c);
        assert SpansBefore(front, j, c) + [] == SpansBefore(front, j, c);
      }
    }
  }

  lemma ReceiveAdds(s: State, rs: seq<ResourceSpans>) returns (added: seq<Action>)
    ensures ReceiveSpans(s, rs).trace == s.trace + added
    ensures EventTrace(s.trace + added) == EventTrace(s.trace)
  {
    if s.invokeEventQueue == [] && s.invocation.Some? && !s.invocation.value.runtimeDone {
      added := [HandledSpans(s.invocation.value.ordinal, rs)];
      assert (s.trace + added)[..|s.trace|] == s.trace;
    } else {
      added := [];
      assert s.trace + [] == s.trace;
    }
  }

  /** In every run, the spans that an invocation is given ahead of one of its events are those that arrive for it before
      that event, its invoke event and the start of normal processing have all arrived. */
  lemma {:induction false} SpansGivenAhead(inputs: seq<Input>, j: nat, c: nat)
    ensures AheadExactly(inputs, j, c)
  {
    if inputs != [] {
      var front := inputs[..|inputs| - 1];
      SpansGivenAhead(front, j, c);
      match Last(inputs)
      case Invoked(e) => QuiesceAhead(inputs, PushInvoke(EventMerge.Run(front), e), j, c);
      case TelemetryReceived(es) => QuiesceAhead(inputs, PushTelemetry(EventMerge.Run(front), es), j, c);
      case SpansReceived(rs) => ReceiveAhead(inputs, j, c);
    }
  }
}
