/** Which of the function spans that arrived at the service go to which invocation, and before which of its events, in
    terms of what arrived (src/telemetry/telemetry_service.rs). */
module SpanAttribution {
  import opened Sequences
  import opened Telemetry
  import opened SpanCapture
  import opened InvocationProcessing
  import opened EventMerge
  import opened Attribution
  import opened InvocationEvents
  import Confluence
  import SpanRouting
  import Runs = InvocationRuns

  /** The spans given to invocation j. */
  function SpansFor(trace: seq<Action>, j: nat): seq<ResourceSpans> {
    if trace == [] then []
    else
      var a := Last(trace);
      SpansFor(trace[..|trace| - 1], j) + if a.HandledSpans? && a.ordinal == j then a.spans else []
  }

  lemma {:induction false} AllSpansAppend(a: seq<ResourceSpans>, b: seq<ResourceSpans>)
    ensures AllSpans(a + b) == AllSpans(a) + AllSpans(b)
  {
    if b == [] {
      assert a + b == a;
    } else {
      var front := b[..|b| - 1];
      AllSpansAppend(a, front);
      assert (a + b)[..|a + b| - 1] == a + front && Last(a + b) == Last(b);
      Associative(AllSpans(a), AllSpans(front), InScopes(Last(b).scopeSpans));
    }
  }

  lemma {:induction false} SpansForSteps(trace: seq<Action>, j: nat, ids: nat -> Bytes)
    ensures SpansIn(Runs.StepsOn(trace, j, ids)) == AllSpans(SpansFor(trace, j))
  {
    if trace != [] {
      var front, a := trace[..|trace| - 1], Last(trace);
      var steps := Runs.StepsOn(front, j, ids);
      SpansForSteps(front, j, ids);
      assert steps + [] == steps && SpansFor(front, j) + [] == SpansFor(front, j);
      if a.HandledSpans? && a.ordinal == j {
        assert (steps + [OnSpans(a.spans)])[..|steps|] == steps;
        AllSpansAppend(SpansFor(front, j), a.spans);
      } else if a.Handled? && a.how == OnInvocation(j) {
        var step := OnEvent(a.event, ids(|front|));
        assert (steps + [step])[..|steps|] == steps;
      }
    }
  }

  lemma SpansForNext(trace: seq<Action>, a: Action, j: nat)
    ensures SpansFor(trace + [a], j) == SpansFor(trace, j) + if a.HandledSpans? && a.ordinal == j then a.spans else []
  {
    assert (trace + [a])[..|trace|] == trace;
  }

  lemma {:induction false} SpansForEvents(trace: seq<Action>, es: seq<Event>, how: Treatment, j: nat)
    ensures SpansFor(trace + HandleAll(es, how), j) == SpansFor(trace, j)
  {
    if es == [] {
      assert trace + HandleAll(es, how) == trace;
    } else {
      var front := es[..|es| - 1];
      SpansForEvents(trace, front, how, j);
      SpansForNext(trace + HandleAll(front, how), Handled(Last(es), how), j);
      assert trace + HandleAll(es, how) == trace + HandleAll(front, how) + [Handled(Last(es), how)];
    }
  }

  // ---------------------------------------------------------------------------
  // In terms of what arrived.

  /** The start of the first invocation has arrived after an init start. */
  ghost predicate StartArrived(inputs: seq<Input>) {
    InvokesOf(inputs) != [] && !NoReplayBefore(EventsOf(inputs), InvokesOf(inputs)[0].requestId, |EventsOf(inputs)|)
  }

  lemma StartArrivedExactly(inputs: seq<Input>)
    ensures StartArrived(inputs) <==> EventMerge.Run(inputs).initHandled
  {
    var s := RunInvariant(inputs);
    var invokes, events := InvokesOf(inputs), EventsOf(inputs);
    if s.initHandled {
      var k, p := ReplayOf(inputs);
      assert events[p].record == PlatformStart(invokes[0].requestId) && InitBefore(events, p);
    } else if invokes != [] {
      assert |EventsIn(EventTrace(s.trace))| == |EventTrace(s.trace)|;
      assert |Confluence.WithoutSpans(s.invokeEventQueue)| == |s.invokeEventQueue|;
      assert s.telemetryEventQueue == [];
    }
  }

  /** Among the events, one ends invocation j or the runtime of it. */
  ghost predicate FinishedAt(events: seq<Event>, k: nat, p: nat, j: nat)
    requires p <= |events|
  {
    || Ordinal(events, k, p, |events|) > j
    || exists i: nat :: i < |events| && GoesOn(events, k, p, j, i) && IsDoneEvent(events[i])
  }

  ghost predicate Finished(inputs: seq<Input>, j: nat) {
    exists k: nat, p: nat :: Replayed(inputs, k, p) && FinishedAt(EventsOf(inputs), k, p, j)
  }

  /** Spans that arrive after these inputs are for the latest invocation, or for the next one if that has finished. */
  ghost function OwnerOf(inputs: seq<Input>): nat {
    var n := |InvokesOf(inputs)|;
    if n > 0 && !Finished(inputs, n - 1) then n - 1 else n
  }

  /** The spans that arrive for invocation j. */
  ghost function SpansTo(inputs: seq<Input>, j: nat): seq<ResourceSpans> {
    if inputs == [] then []
    else
      var front, input := inputs[..|inputs| - 1], Last(inputs);
      SpansTo(front, j) + if input.SpansReceived? && OwnerOf(front) == j then input.spans else []
  }

  // ---------------------------------------------------------------------------
  // Where the service puts spans.

  /** The invocation that is given spans arriving now. */
  function Destination(s: State): nat {
    if s.invokeEventQueue != [] then s.openings + |s.invokeEventQueue| - 1
    else if s.invocation.Some? && !s.invocation.value.runtimeDone then s.invocation.value.ordinal
    else s.openings
  }

  lemma RunCounts(inputs: seq<Input>)
    ensures Quiescent(EventMerge.Run(inputs))
    ensures EventMerge.Run(inputs).openings + |EventMerge.Run(inputs).invokeEventQueue| == |InvokesOf(inputs)|
    ensures EventMerge.Run(inputs).invocation.Some? ==>
              EventMerge.Run(inputs).invocation.value.ordinal + 1 == EventMerge.Run(inputs).openings
  {
    var s := RunInvariant(inputs);
    assert |Confluence.WithoutSpans(s.invokeEventQueue)| == |s.invokeEventQueue|;
    assert |Confluence.WithoutSpans(EventMerge.Run(inputs).invokeEventQueue)|
        == |EventMerge.Run(inputs).invokeEventQueue|;
  }

  /** The flag of the open invocation, in terms of the events that it was given. */
  lemma DoneAmongEvents(inputs: seq<Input>)
    ensures var s := EventMerge.Run(inputs);
            s.invocation.Some? ==>
              (s.invocation.value.runtimeDone
               <==> !NoneOf(EventsOn(EventTrace(s.trace), s.invocation.value.ordinal), IsDoneEvent))
  {
    var s := EventMerge.Run(inputs);
    if s.invocation.Some? {
      var j, ids := s.invocation.value.ordinal, (i: nat) => [];
      SpanRouting.SpanFifo(inputs);
      Runs.DoneOnSteps(s.trace, j, ids);
      NeverAmong(Runs.StepsOn(s.trace, j, ids));
      StepsAreEvents(s.trace, j, ids);
    }
  }

  /** While an invocation is open, all events have been processed; otherwise all invocations have been closed. */
  lemma OpenOrClosed(inputs: seq<Input>, k: nat, p: nat)
    requires Replayed(inputs, k, p)
    ensures var s, events := EventMerge.Run(inputs), EventsOf(inputs);
            && AfterReplay(s, events, InvokesOf(inputs)[0].context, k, p)
            && (if s.invocation.Some?
                then |EventTrace(s.trace)| == |events| && Ordinal(events, k, p, |events|) + 1 == s.openings
                else s.openings == |InvokesOf(inputs)| && Ordinal(events, k, p, |events|) >= s.openings)
  {
    var s, events := EventMerge.Run(inputs), EventsOf(inputs);
    RunAfterReplay(inputs, k, p);
    RunCounts(inputs);
    EventsConserved(inputs);
    assert |EventsIn(EventTrace(s.trace))| == |EventTrace(s.trace)|;
    OrdinalMonotone(events, k, p, |EventTrace(s.trace)|, |events|);
  }

  lemma FinishedExactly(inputs: seq<Input>, k: nat, p: nat, j: nat)
    requires Replayed(inputs, k, p)
    ensures Finished(inputs, j) <==> FinishedAt(EventsOf(inputs), k, p, j)
  {
    if k': nat, p': nat :| Replayed(inputs, k', p') && FinishedAt(EventsOf(inputs), k', p', j) {
      OneReplay(inputs, k, p, k', p');
    }
  }

  lemma NotFinished(inputs: seq<Input>, j: nat)
    requires !EventMerge.Run(inputs).initHandled
    ensures !Finished(inputs, j)
  {
    if k: nat, p: nat :| Replayed(inputs, k, p) && FinishedAt(EventsOf(inputs), k, p, j) {
      RunAfterReplay(inputs, k, p);
    }
  }

  lemma NothingGoesTo(events: seq<Event>, k: nat, p: nat, j: nat)
    requires p <= |events| && Ordinal(events, k, p, |events|) < j
    ensures forall i: nat :: i < |events| ==> !GoesOn(events, k, p, j, i)
  {
    forall i: nat | i < |events| ensures !GoesOn(events, k, p, j, i) {
      OrdinalMonotone(events, k, p, i, |events|);
    }
  }

  /** An open invocation that was given all the latest events has finished exactly when one of them says so. */
  lemma OpenFinished(t: seq<TreatedEvent>, events: seq<Event>, context: FunctionContext, k: nat, p: nat, j: nat,
                     done: bool)
    requires Treated(t, events, context, k, p) && |t| == |events| && Ordinal(events, k, p, |events|) == j
    requires done <==> !NoneOf(EventsOn(t, j), IsDoneEvent)
    ensures FinishedAt(events, k, p, j) <==> done
  {
    AmongEvents(t, events, context, k, p, j, IsDoneEvent);
  }

  lemma QueuedNotFinished(events: seq<Event>, k: nat, p: nat, j: nat)
    requires p <= |events| && Ordinal(events, k, p, |events|) < j
    ensures !FinishedAt(events, k, p, j)
  {
    NothingGoesTo(events, k, p, j);
  }

  /** The latest invocation has finished exactly when it is closed or its flag is set, and nothing is queued. */
  lemma LatestFinished(inputs: seq<Input>, k: nat, p: nat)
    requires Replayed(inputs, k, p)
    ensures var s := EventMerge.Run(inputs);
            FinishedAt(EventsOf(inputs), k, p, |InvokesOf(inputs)| - 1)
            <==> s.invokeEventQueue == [] && (s.invocation.Some? ==> s.invocation.value.runtimeDone)
  {
    var s, events, j := EventMerge.Run(inputs), EventsOf(inputs), |InvokesOf(inputs)| - 1;
    OpenOrClosed(inputs, k, p);
    RunCounts(inputs);
    DoneAmongEvents(inputs);
    LatestFinishedExactly(s, events, InvokesOf(inputs)[0].context, k, p, j);
  }

  lemma LatestFinishedExactly(s: State, events: seq<Event>, context: FunctionContext, k: nat, p: nat, j: int)
    requires Quiescent(s) && AfterReplay(s, events, context, k, p) && s.openings + |s.invokeEventQueue| == j + 1
    requires if s.invocation.Some?
             then |EventTrace(s.trace)| == |events| && Ordinal(events, k, p, |events|) + 1 == s.openings
                  && s.invocation.value.ordinal + 1 == s.openings
             else s.openings == j + 1 && Ordinal(events, k, p, |events|) >= s.openings
    requires s.invocation.Some? ==>
               (s.invocation.value.runtimeDone
                <==> !NoneOf(EventsOn(EventTrace(s.trace), s.invocation.value.ordinal), IsDoneEvent))
    requires j >= 0
    ensures FinishedAt(events, k, p, j)
       <==> s.invokeEventQueue == [] && (s.invocation.Some? ==> s.invocation.value.runtimeDone)
  {
    if s.invocation.Some? {
      OpenFinishedExactly(s, events, context, k, p, j);
    }
  }

  lemma OpenFinishedExactly(s: State, events: seq<Event>, context: FunctionContext, k: nat, p: nat, j: int)
    requires s.invocation.Some? && AfterReplay(s, events, context, k, p)
    requires |EventTrace(s.trace)| == |events| && Ordinal(events, k, p, |events|) + 1 == s.openings
    requires s.invocation.value.ordinal + 1 == s.openings && s.openings + |s.invokeEventQueue| == j + 1
    requires s.invocation.value.runtimeDone
        <==> !NoneOf(EventsOn(EventTrace(s.trace), s.invocation.value.ordinal), IsDoneEvent)
    ensures FinishedAt(events, k, p, j) <==> s.invokeEventQueue == [] && s.invocation.value.runtimeDone
  {
    if s.invokeEventQueue == [] {
      OpenFinished(EventTrace(s.trace), events, context, k, p, j, s.invocation.value.runtimeDone);
    } else {
      QueuedNotFinished(events, k, p, j);
    }
  }

  lemma DestinationIsOwner(inputs: seq<Input>)
    ensures Destination(EventMerge.Run(inputs)) == OwnerOf(inputs)
  {
    var s, n := EventMerge.Run(inputs), |InvokesOf(inputs)|;
    RunCounts(inputs);
    if s.initHandled {
      var k, p := ReplayOf(inputs);
      FinishedExactly(inputs, k, p, n - 1);
      LatestFinished(inputs, k, p);
    } else {
      if n > 0 {
        NotFinished(inputs, n - 1);
      }
      NotDoneBeforeReplay(inputs);
    }
  }

  lemma NotDoneBeforeReplay(inputs: seq<Input>)
    requires !EventMerge.Run(inputs).initHandled
    ensures var s := EventMerge.Run(inputs);
            && s.openings <= 1 && (s.openings == 1 <==> s.invocation.Some?)
            && (s.invocation.Some? ==> !s.invocation.value.runtimeDone)
  {
    var s := RunInvariant(inputs);
    DoneAmongEvents(inputs);
    if s.invocation.Some? {
      BeforeReplay(inputs, s.invocation.value.ordinal);
    }
  }

  // ---------------------------------------------------------------------------
  // The invariant.

  /** The spans that invocation j was given or that wait for it. */
  function Placed(s: State, j: nat): seq<ResourceSpans> {
    if j < s.openings then SpansFor(s.trace, j)
    else
      (if j == s.openings then s.functionSpansBuffer else [])
      + if j - s.openings < |s.invokeEventQueue| then s.invokeEventQueue[j - s.openings].spans else []
  }

  ghost predicate PlacedAs(s: State, j: nat, spans: seq<ResourceSpans>) {
    && (s.invocation.Some? ==> s.invocation.value.ordinal + 1 == s.openings)
    && (j >= s.openings ==> SpansFor(s.trace, j) == [])
    && Placed(s, j) == spans
  }

  lemma OpenPlaces(s: State, j: nat, spans: seq<ResourceSpans>)
    requires PlacedAs(s, j, spans) && CanOpen(s)
    ensures PlacedAs(OpenNext(s), j, spans)
  {
    var n, q := s.openings, s.invokeEventQueue[0];
    var middle := s.trace + [HandledSpans(n, s.functionSpansBuffer)];
    SpansForNext(s.trace, HandledSpans(n, s.functionSpansBuffer), j);
    SpansForNext(middle, HandledSpans(n, q.spans), j);
    assert OpenNext(s).trace == middle + [HandledSpans(n, q.spans)];
  }

  lemma TakePlaces(s: State, j: nat, spans: seq<ResourceSpans>)
    requires PlacedAs(s, j, spans) && CanTake(s)
    ensures PlacedAs(TakeNext(s), j, spans)
  {
    var es, how := Confluence.TakeAdds(s);
    SpansForEvents(s.trace, es, how, j);
    if how.OnInvocation? && TakeNext(s).invocation.Some? {
      Confluence.AfterAllKeepsOrdinal(s.invocation.value, es);
    }
  }

  lemma {:induction false} QuiescePlaces(s: State, j: nat, spans: seq<ResourceSpans>)
    requires PlacedAs(s, j, spans)
    ensures PlacedAs(Quiesce(s), j, spans)
    decreases !s.initHandled, |s.telemetryEventQueue|, |s.invokeEventQueue|
  {
    if CanOpen(s) {
      OpenPlaces(s, j, spans);
      QuiescePlaces(EventMerge.Step(s), j, spans);
    } else if CanTake(s) {
      TakePlaces(s, j, spans);
      QuiescePlaces(EventMerge.Step(s), j, spans);
    }
  }

  /** Spans for the last queued invocation. */
  lemma QueuePlaces(s: State, j: nat, spans: seq<ResourceSpans>, rs: seq<ResourceSpans>)
    requires PlacedAs(s, j, spans) && s.invokeEventQueue != []
    ensures PlacedAs(ReceiveSpans(s, rs), j, if Destination(s) == j then spans + rs else spans)
  {
    var q := s.invokeEventQueue;
    var held := if j == s.openings then s.functionSpansBuffer else [];
    if Destination(s) == j {
      Associative(held, Last(q).spans, rs);
    }
  }

  lemma HoldPlaces(s: State, j: nat, spans: seq<ResourceSpans>, rs: seq<ResourceSpans>)
    requires PlacedAs(s, j, spans) && s.invokeEventQueue == []
    requires s.invocation.Some? ==> s.invocation.value.runtimeDone
    ensures PlacedAs(ReceiveSpans(s, rs), j, if Destination(s) == j then spans + rs else spans)
  {
    assert s.functionSpansBuffer + [] == s.functionSpansBuffer;
    assert s.functionSpansBuffer + rs + [] == s.functionSpansBuffer + rs;
  }

  lemma ReceivePlaces(s: State, j: nat, spans: seq<ResourceSpans>, rs: seq<ResourceSpans>)
    requires PlacedAs(s, j, spans)
    ensures PlacedAs(ReceiveSpans(s, rs), j, if Destination(s) == j then spans + rs else spans)
  {
    if s.invokeEventQueue != [] {
      QueuePlaces(s, j, spans, rs);
    } else if s.invocation.Some? && !s.invocation.value.runtimeDone {
      SpansForNext(s.trace, HandledSpans(s.invocation.value.ordinal, rs), j);
    } else {
      HoldPlaces(s, j, spans, rs);
    }
  }

  lemma InputPlaces(s: State, input: Input, j: nat, spans: seq<ResourceSpans>)
    requires PlacedAs(s, j, spans)
    ensures PlacedAs(Receive(s, input), j,
                     if input.SpansReceived? && Destination(s) == j then spans + input.spans else spans)
  {
    match input
    case Invoked(e) => QuiescePlaces(PushInvoke(s, e), j, spans);
    case TelemetryReceived(es) => QuiescePlaces(PushTelemetry(s, es), j, spans);
    case SpansReceived(rs) => ReceivePlaces(s, j, spans, rs);
  }

  /** In every run the spans that arrive for an invocation are those that it is given, in order, or, before it is
      opened, those that wait for it. */
  lemma {:induction false} SpansGiven(inputs: seq<Input>, j: nat)
    ensures PlacedAs(EventMerge.Run(inputs), j, SpansTo(inputs, j))
  {
    if inputs != [] {
      var front := inputs[..|inputs| - 1];
      var s, spans := EventMerge.Run(front), SpansTo(front, j);
      SpansGiven(front, j);
      DestinationIsOwner(front);
      assert spans + [] == spans;
      InputPlaces(s, Last(inputs), j, spans);
    }
  }

  // ---------------------------------------------------------------------------
  // Which invocations have been opened and closed.

  /** Among what arrived, events end invocation j. */
  ghost predicate Ended(inputs: seq<Input>, j: nat) {
    && j < |InvokesOf(inputs)|
    && exists k: nat, p: nat :: Replayed(inputs, k, p) && EndedAt(EventsOf(inputs), k, p, j)
  }

  ghost predicate EndedAt(events: seq<Event>, k: nat, p: nat, j: nat)
    requires p <= |events|
  {
    Ordinal(events, k, p, |events|) > j
  }

  /** In every run an invocation has been opened and closed exactly when its invoke event arrived and events that end it
      and all before it. */
  lemma ClosedExactlyWhenEnded(inputs: seq<Input>, j: nat)
    ensures j < EventMerge.Run(inputs).openings && !IsOpen(EventMerge.Run(inputs), j) <==> Ended(inputs, j)
  {
    var s := EventMerge.Run(inputs);
    RunCounts(inputs);
    if s.initHandled {
      var k, p := ReplayOf(inputs);
      OpenOrClosed(inputs, k, p);
      if EndedAt(EventsOf(inputs), k, p, j) {
        assert j < |InvokesOf(inputs)| ==> Ended(inputs, j);
      } else if k': nat, p': nat :| Replayed(inputs, k', p') && EndedAt(EventsOf(inputs), k', p', j) {
        OneReplay(inputs, k, p, k', p');
      }
    } else {
      if j < s.openings {
        BeforeReplay(inputs, j);
      }
      if k: nat, p: nat :| Replayed(inputs, k, p) && EndedAt(EventsOf(inputs), k, p, j) {
        RunAfterReplay(inputs, k, p);
      }
    }
  }

  lemma ClosedWhenEnded(inputs: seq<Input>, k: nat, p: nat, j: nat)
    requires Replayed(inputs, k, p) && j < |InvokesOf(inputs)|
    ensures j < EventMerge.Run(inputs).openings && !IsOpen(EventMerge.Run(inputs), j)
       <==> EndedAt(EventsOf(inputs), k, p, j)
  {
    ClosedExactlyWhenEnded(inputs, j);
    if Ended(inputs, j) {
      var k': nat, p': nat :| Replayed(inputs, k', p') && EndedAt(EventsOf(inputs), k', p', j);
      OneReplay(inputs, k, p, k', p');
    }
  }

  // ---------------------------------------------------------------------------
  // The first invocation, when a report among the replayed events closes it as soon as normal processing starts.

  /** The spans that arrive before the second invoke event, and before normal processing starts. */
  ghost function FirstArrivals(inputs: seq<Input>): seq<ResourceSpans> {
    if inputs == [] then []
    else
      var front, input := inputs[..|inputs| - 1], Last(inputs);
      FirstArrivals(front)
      + if input.SpansReceived? && |InvokesOf(front)| <= 1 && !StartArrived(front) then input.spans else []
  }

  lemma ReplayInPrefix(events: seq<Event>, all: seq<Event>, r: string, p: nat, k: nat)
    requires events <= all && ReplayAt(events, r, p) && LastInit(events, p, k)
    ensures ReplayAt(all, r, p) && LastInit(all, p, k)
    ensures ReportIn(events, k, p) <==> ReportIn(all, k, p)
  {
    assert forall i :: 0 <= i < |events| ==> events[i] == all[i];
    assert forall q: nat :: q <= p ==> (InitBefore(events, q) <==> InitBefore(all, q));
  }

  /** What arrives later does not change where normal processing starts. */
  lemma ReplayStays(inputs: seq<Input>, k: nat, p: nat)
    requires inputs != [] && Replayed(inputs[..|inputs| - 1], k, p)
    ensures Replayed(inputs, k, p)
    ensures ReportIn(EventsOf(inputs[..|inputs| - 1]), k, p) <==> ReportIn(EventsOf(inputs), k, p)
  {
    var front := inputs[..|inputs| - 1];
    assert EventsOf(front) <= EventsOf(inputs) && InvokesOf(front) <= InvokesOf(inputs);
    ReplayInPrefix(EventsOf(front), EventsOf(inputs), InvokesOf(inputs)[0].requestId, p, k);
  }

  /** If normal processing starts, it does so with a report. */
  ghost predicate ReportIfReplayed(inputs: seq<Input>) {
    forall k: nat, p: nat :: Replayed(inputs, k, p) ==> ReportIn(EventsOf(inputs), k, p)
  }

  lemma ReportIfEarlier(inputs: seq<Input>)
    requires inputs != [] && ReportIfReplayed(inputs)
    ensures ReportIfReplayed(inputs[..|inputs| - 1])
  {
    var front := inputs[..|inputs| - 1];
    forall k: nat, p: nat | Replayed(front, k, p) ensures ReportIn(EventsOf(front), k, p) {
      ReplayStays(inputs, k, p);
    }
  }

  lemma FirstFinished(inputs: seq<Input>)
    requires ReportIfReplayed(inputs)
    ensures Finished(inputs, 0) <==> StartArrived(inputs)
  {
    StartArrivedExactly(inputs);
    if StartArrived(inputs) {
      var k, p := ReplayOf(inputs);
      var events := EventsOf(inputs);
      assert Closes(events, k, p, p) && Ordinal(events, k, p, p + 1) == 1;
      OrdinalMonotone(events, k, p, p + 1, |events|);
      assert FinishedAt(events, k, p, 0);
    } else {
      NotFinished(inputs, 0);
    }
  }

  lemma {:induction false} FirstArrivalsExactly(inputs: seq<Input>)
    requires ReportIfReplayed(inputs)
    ensures SpansTo(inputs, 0) == FirstArrivals(inputs)
  {
    if inputs != [] {
      ReportIfEarlier(inputs);
      FirstFinished(inputs[..|inputs| - 1]);
      FirstArrivalsExactly(inputs[..|inputs| - 1]);
    }
  }

  /** When a report is among the replayed events, the first invocation is given exactly the spans that arrive before the
      second invoke event and before normal processing starts. */
  lemma FirstSpansGiven(inputs: seq<Input>, k: nat, p: nat)
    requires Replayed(inputs, k, p) && ReportIn(EventsOf(inputs), k, p)
    ensures SpansFor(EventMerge.Run(inputs).trace, 0) == SpansTo(inputs, 0) == FirstArrivals(inputs)
  {
    forall k': nat, p': nat | Replayed(inputs, k', p') ensures ReportIn(EventsOf(inputs), k', p') {
      OneReplay(inputs, k, p, k', p');
    }
    FirstArrivalsExactly(inputs);
    SpansGiven(inputs, 0);
    OpenOrClosed(inputs, k, p);
  }

  // ---------------------------------------------------------------------------
  // Such events: an old report is replayed, and ends the first invocation as it starts.

  function ReportEvents(e: InvokeEvent): seq<Event> {
    [Event(1, PlatformInitStart), Event(2, PlatformReport("old")), Event(3, PlatformStart(e.requestId))]
  }

  lemma ReportEnds(e: InvokeEvent)
    ensures ReplayAt(ReportEvents(e), e.requestId, 2) && LastInit(ReportEvents(e), 2, 0)
    ensures GoesOn(ReportEvents(e), 0, 2, 0, 2) && EndedAt(ReportEvents(e), 0, 2, 0)
  {
    var events := ReportEvents(e);
    assert IsInit(events[0]) && events[1].record.PlatformReport?;
    assert InitBefore(events, 2) && ReportIn(events, 0, 2);
    assert Closes(events, 0, 2, 2);
    assert Ordinal(events, 0, 2, 3) == Ordinal(events, 0, 2, 2) + 1;
  }
}
