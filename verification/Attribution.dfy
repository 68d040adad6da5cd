/** A declarative account of what happens to every telemetry event: which are processed in degraded mode
    and in which chunk, where normal processing starts, and which invocation each event goes to
    (src/telemetry/telemetry_service.rs). */
module Attribution {
  import opened Sequences
  import opened Telemetry
  import opened EventMerge
  import opened Confluence

  predicate IsInit(e: Event) {
    e.record.PlatformInitStart?
  }

  ghost predicate InitBefore(es: seq<Event>, i: nat)
    requires i <= |es|
  {
    exists j :: 0 <= j < i && IsInit(es[j])
  }

  /** p is the first start of request r that comes after some init start. */
  ghost predicate ReplayAt(es: seq<Event>, r: string, p: nat) {
    && p < |es| && es[p].record == PlatformStart(r) && InitBefore(es, p)
    && NoReplayBefore(es, r, p)
  }

  ghost predicate NoReplayBefore(es: seq<Event>, r: string, n: nat)
    requires n <= |es|
  {
    forall q :: 0 <= q < n && es[q].record == PlatformStart(r) ==> !InitBefore(es, q)
  }

  /** k is the last init start before p. */
  ghost predicate LastInit(es: seq<Event>, p: nat, k: nat)
    requires p <= |es|
  {
    k < p && IsInit(es[k]) && forall j :: k < j < p ==> !IsInit(es[j])
  }

  /** The number of init starts up to and including position i, not counting one at position 0:
      the chunks before the last init start are cut in front of each init start. */
  function Chunk(es: seq<Event>, i: nat): nat
    requires i < |es|
  {
    if i == 0 then 0 else Chunk(es, i - 1) + if IsInit(es[i]) then 1 else 0
  }

  ghost predicate ReportIn(es: seq<Event>, k: nat, p: nat)
    requires p <= |es|
  {
    exists j :: k <= j < p && es[j].record.PlatformReport?
  }

  /** Event i ends an invocation: a report does, and so does the start event p itself when the replayed
      events k..p contain a report. */
  ghost predicate Closes(es: seq<Event>, k: nat, p: nat, i: nat)
    requires p <= i < |es|
  {
    es[i].record.PlatformReport? || (i == p && ReportIn(es, k, p))
  }

  /** The number of invocations that ended before event i. */
  ghost function Ordinal(es: seq<Event>, k: nat, p: nat, i: nat): nat
    requires p <= |es| && i <= |es|
  {
    if i <= p then 0 else Ordinal(es, k, p, i - 1) + if Closes(es, k, p, i - 1) then 1 else 0
  }

  ghost function TreatmentOf(es: seq<Event>, context: FunctionContext, k: nat, p: nat, i: nat): Treatment
    requires p <= |es| && i < |es|
  {
    if i < k then Degraded(Chunk(es, i), context) else OnInvocation(Ordinal(es, k, p, i))
  }

  // ---------------------------------------------------------------------------
  // The invariant of the merge loop, for given arrivals.

  function EventsIn(t: seq<TreatedEvent>): seq<Event> {
    seq(|t|, i requires 0 <= i < |t| => t[i].event)
  }

  ghost predicate Conserved(s: State, events: seq<Event>) {
    EventsIn(EventTrace(s.trace)) + s.halfProcessedEventBuffer + s.telemetryEventQueue == events
  }

  ghost predicate InvokesConserved(s: State, invokes: seq<InvokeEvent>) {
    && s.openings + |s.invokeEventQueue| == |invokes|
    && WithoutSpans(s.invokeEventQueue) == invokes[s.openings..]
    && (s.invocation.Some? ==>
          && s.openings > 0 && s.invocation.value.ordinal == s.openings - 1
          && s.invocation.value.invoke == invokes[s.openings - 1])
  }

  /** Before the first invocation is open nothing is touched; until normal processing starts it stays open. */
  ghost predicate FirstInvocation(s: State) {
    && (s.openings == 0 ==> EventTrace(s.trace) == [] && s.halfProcessedEventBuffer == [] && !s.initHandlingStarted)
    && (!s.initHandled ==> s.openings <= 1 && (s.openings == 1 <==> s.invocation.Some?))
    && (!s.initHandled && s.invocation.Some? ==> !s.invocation.value.reported)
  }

  ghost predicate BeforeInit(s: State, events: seq<Event>)
    requires |EventTrace(s.trace)| + |s.halfProcessedEventBuffer| <= |events|
  {
    && !s.initHandled && EventTrace(s.trace) == [] && s.chunks == 0
    && forall i :: 0 <= i < |s.halfProcessedEventBuffer| ==> !IsInit(events[i])
  }

  ghost predicate DuringInit(s: State, invokes: seq<InvokeEvent>, events: seq<Event>)
    requires |EventTrace(s.trace)| + |s.halfProcessedEventBuffer| <= |events|
  {
    var t := EventTrace(s.trace);
    var n := |t|;
    var m := n + |s.halfProcessedEventBuffer|;
    && invokes != []
    && LastInit(events, m, n)
    && NoReplayBefore(events, invokes[0].requestId, m)
    && s.chunks == Chunk(events, n)
    && forall i :: 0 <= i < n ==> t[i].how == Degraded(Chunk(events, i), invokes[0].context)
  }

  /** Normal processing, replayed from k, has reached the end of the trace. */
  ghost predicate AfterInit(s: State, invokes: seq<InvokeEvent>, events: seq<Event>, k: nat, p: nat)
    requires |EventTrace(s.trace)| <= |events|
  {
    var t := EventTrace(s.trace);
    var n := |t|;
    && s.halfProcessedEventBuffer == [] && invokes != [] && s.replayEnd == p
    && ReplayAt(events, invokes[0].requestId, p) && LastInit(events, p, k) && p <= n
    && (forall i :: 0 <= i < n ==> t[i].how == TreatmentOf(events, invokes[0].context, k, p, i))
    && (s.invocation.Some? ==>
          && Ordinal(events, k, p, n) + 1 == s.openings
          && (s.invocation.value.reported <==> n == p && ReportIn(events, k, p)))
    && (s.invocation.None? ==>
          && Ordinal(events, k, p, n) == s.openings
          && n > p && Closes(events, k, p, n - 1))
  }

  ghost predicate Invariant(s: State, invokes: seq<InvokeEvent>, events: seq<Event>) {
    && Conserved(s, events)
    && InvokesConserved(s, invokes)
    && FirstInvocation(s)
    && (!s.initHandlingStarted ==> BeforeInit(s, events))
    && (s.initHandlingStarted && !s.initHandled ==> DuringInit(s, invokes, events))
    && (s.initHandled ==> s.initHandlingStarted && exists k, p :: AfterInit(s, invokes, events, k, p))
  }

  // ---------------------------------------------------------------------------
  // Every step keeps the invariant.

  /** Moving events from the half-processed buffer and the queue to the trace conserves them. */
  lemma ConservedAfter(s: State, s': State, es: seq<Event>, how: Treatment, events: seq<Event>)
    requires Conserved(s, events)
    requires s'.trace == s.trace + HandleAll(es, how)
    requires es + s'.halfProcessedEventBuffer + s'.telemetryEventQueue
          == s.halfProcessedEventBuffer + s.telemetryEventQueue
    ensures Conserved(s', events)
    ensures EventTrace(s'.trace) == EventTrace(s.trace) + TreatAll(es, how)
  {
    EventTraceAppend(s.trace, HandleAll(es, how));
    HandleAllTraces(es, how);
    var done := EventsIn(EventTrace(s.trace));
    assert EventsIn(EventTrace(s'.trace)) == done + es;
    Regroup(done, es, s'.halfProcessedEventBuffer, s'.telemetryEventQueue, s.halfProcessedEventBuffer,
            s.telemetryEventQueue);
  }

  lemma AfterAllFacts(inv: OpenInvocation, es: seq<Event>)
    ensures AfterAll(inv, es).ordinal == inv.ordinal && AfterAll(inv, es).invoke == inv.invoke
    ensures AfterAll(inv, es).reported <==> inv.reported || exists j :: 0 <= j < |es| && es[j].record.PlatformReport?
    decreases es
  {
    if es != [] {
      AfterAllFacts(inv.After(es[0]), es[1..]);
      assert forall j :: 0 <= j < |es[1..]| ==> es[1..][j] == es[j + 1];
      assert forall j :: 0 < j < |es| ==> es[j] == es[1..][j - 1];
    }
  }

  lemma OpenKeeps(s: State, invokes: seq<InvokeEvent>, events: seq<Event>)
    requires Invariant(s, invokes, events) && CanOpen(s)
    ensures Invariant(OpenNext(s), invokes, events)
  {
    var q := s.invokeEventQueue;
    var s' := OpenNext(s);
    OnlySpans(s.trace, [HandledSpans(s.openings, s.functionSpansBuffer), HandledSpans(s.openings, q[0].spans)]);
    assert WithoutSpans(q)[0] == q[0].event == invokes[s.openings];
    assert WithoutSpans(q[1..]) == WithoutSpans(q)[1..] == invokes[s.openings + 1..];
    if s.initHandled {
      var k, p :| AfterInit(s, invokes, events, k, p);
      assert AfterInit(s', invokes, events, k, p);
    }
  }

  lemma HoldKeeps(s: State, invokes: seq<InvokeEvent>, events: seq<Event>)
    requires Invariant(s, invokes, events) && CanTake(s) && !s.initHandled
    requires var e := s.telemetryEventQueue[0];
             !IsInit(e) && (s.initHandlingStarted ==> e.record != PlatformStart(s.invocation.value.invoke.requestId))
    ensures Invariant(TakeNext(s), invokes, events)
  {
    var how := OnInvocation(0);
    assert s.trace + HandleAll([], how) == s.trace && EventTrace(s.trace) + TreatAll([], how) == EventTrace(s.trace);
    ConservedAfter(s, TakeNext(s), [], how, events);
    assert s.telemetryEventQueue[0] == events[|EventTrace(s.trace)| + |s.halfProcessedEventBuffer|];
  }

  /** No init start, no new chunk. */
  lemma {:induction false} SameChunk(events: seq<Event>, n: nat, i: nat)
    requires n <= i < |events| && forall j :: n < j <= i ==> !IsInit(events[j])
    ensures Chunk(events, i) == Chunk(events, n)
    decreases i
  {
    if n < i {
      SameChunk(events, n, i - 1);
    }
  }

  lemma FirstInitKeeps(s: State, invokes: seq<InvokeEvent>, events: seq<Event>)
    requires Invariant(s, invokes, events) && CanTake(s) && !s.initHandlingStarted
    requires IsInit(s.telemetryEventQueue[0])
    ensures Invariant(TakeNext(s), invokes, events)
  {
    var half := s.halfProcessedEventBuffer;
    var m := |half|;
    var how := Degraded(0, s.invocation.value.invoke.context);
    assert m == 0 ==> s.trace + HandleAll(half, how) == s.trace;
    ConservedAfter(s, TakeNext(s), half, how, events);
    assert s.telemetryEventQueue[0] == events[m];
    forall i | 0 <= i < m ensures Chunk(events, i) == 0 {
      SameChunk(events, 0, i);
    }
    assert DuringInit(TakeNext(s), invokes, events);
  }

  lemma NextInitKeeps(s: State, invokes: seq<InvokeEvent>, events: seq<Event>)
    requires Invariant(s, invokes, events) && CanTake(s) && s.initHandlingStarted && !s.initHandled
    requires IsInit(s.telemetryEventQueue[0])
    ensures Invariant(TakeNext(s), invokes, events)
  {
    var half := s.halfProcessedEventBuffer;
    var n := |EventTrace(s.trace)|;
    var m := n + |half|;
    ConservedAfter(s, TakeNext(s), half, Degraded(s.chunks, s.invocation.value.invoke.context), events);
    assert s.telemetryEventQueue[0] == events[m];
    NextChunk(EventTrace(s.trace), half, events, invokes[0].context);
    assert DuringInit(TakeNext(s), invokes, events);
  }

  /** The events between two init starts are one chunk. */
  lemma NextChunk(t: seq<TreatedEvent>, half: seq<Event>, events: seq<Event>, context: FunctionContext)
    requires |t| + |half| < |events| && LastInit(events, |t| + |half|, |t|) && IsInit(events[|t| + |half|])
    requires forall i :: 0 <= i < |t| ==> t[i].how == Degraded(Chunk(events, i), context)
    ensures var done := t + TreatAll(half, Degraded(Chunk(events, |t|), context));
            && Chunk(events, |done|) == Chunk(events, |t|) + 1
            && forall i :: 0 <= i < |done| ==> done[i].how == Degraded(Chunk(events, i), context)
  {
    forall i | |t| <= i < |t| + |half| ensures Chunk(events, i) == Chunk(events, |t|) {
      SameChunk(events, |t|, i);
    }
  }

  lemma ReportInHalf(s: State, events: seq<Event>, k: nat, p: nat)
    requires Conserved(s, events)
    requires k == |EventTrace(s.trace)| && p == k + |s.halfProcessedEventBuffer|
    ensures ReportIn(events, k, p)
       <==> exists j :: 0 <= j < |s.halfProcessedEventBuffer| && s.halfProcessedEventBuffer[j].record.PlatformReport?
  {
    var half := s.halfProcessedEventBuffer;
    assert forall j :: 0 <= j < |half| ==> half[j] == events[k + j];
    if ReportIn(events, k, p) {
      var j :| k <= j < p && events[j].record.PlatformReport?;
      assert half[j - k] == events[j];
    }
  }

  lemma ReplayKeeps(s: State, invokes: seq<InvokeEvent>, events: seq<Event>)
    requires Invariant(s, invokes, events) && CanTake(s) && s.initHandlingStarted && !s.initHandled
    requires s.telemetryEventQueue[0].record == PlatformStart(s.invocation.value.invoke.requestId)
    ensures Invariant(TakeNext(s), invokes, events)
  {
    var inv := s.invocation.value;
    var half := s.halfProcessedEventBuffer;
    var k := |EventTrace(s.trace)|;
    var p := k + |half|;
    AfterAllFacts(inv, half);
    ConservedAfter(s, TakeNext(s), half, OnInvocation(inv.ordinal), events);
    ReportInHalf(s, events, k, p);
    assert events[p] == s.telemetryEventQueue[0] && IsInit(events[k]);
    assert AfterInit(TakeNext(s), invokes, events, k, p);
  }

  lemma NormalAdvances(s: State, invokes: seq<InvokeEvent>, events: seq<Event>, k: nat, p: nat, s': State)
    requires |EventTrace(s.trace)| < |events| && AfterInit(s, invokes, events, k, p)
    requires s.invocation.Some? && s.invocation.value.ordinal + 1 == s.openings
    requires s'.openings == s.openings && s'.halfProcessedEventBuffer == [] && s'.replayEnd == s.replayEnd
    requires var e := events[|EventTrace(s.trace)|];
             && EventTrace(s'.trace)
                == EventTrace(s.trace) + [TreatedEvent(e, OnInvocation(s.invocation.value.ordinal))]
             && s'.invocation
                == if s.invocation.value.After(e).reported then None else Some(s.invocation.value.After(e))
    ensures AfterInit(s', invokes, events, k, p)
  {
    var n := |EventTrace(s.trace)|;
    assert Ordinal(events, k, p, n + 1) == Ordinal(events, k, p, n) + if Closes(events, k, p, n) then 1 else 0;
    assert s.invocation.value.After(events[n]).reported <==> Closes(events, k, p, n);
  }

  lemma NormalConserves(s: State, events: seq<Event>)
    requires Conserved(s, events) && CanTake(s) && s.initHandlingStarted && s.initHandled
    requires s.halfProcessedEventBuffer == []
    ensures |EventTrace(s.trace)| < |events| && events[|EventTrace(s.trace)|] == s.telemetryEventQueue[0]
    ensures Conserved(TakeNext(s), events)
    ensures EventTrace(TakeNext(s).trace)
         == EventTrace(s.trace) + [TreatedEvent(s.telemetryEventQueue[0], OnInvocation(s.invocation.value.ordinal))]
  {
    var how, e := OnInvocation(s.invocation.value.ordinal), s.telemetryEventQueue[0];
    assert HandleAll([e], how) == [Handled(e, how)] && TreatAll([e], how) == [TreatedEvent(e, how)];
    ConservedAfter(s, TakeNext(s), [e], how, events);
    assert (EventsIn(EventTrace(s.trace)) + s.halfProcessedEventBuffer + s.telemetryEventQueue)[|EventTrace(s.trace)|]
        == e;
  }

  lemma NormalKeeps(s: State, invokes: seq<InvokeEvent>, events: seq<Event>)
    requires Invariant(s, invokes, events) && CanTake(s) && s.initHandled
    ensures Invariant(TakeNext(s), invokes, events)
  {
    NormalConserves(s, events);
    var k, p :| AfterInit(s, invokes, events, k, p);
    NormalAdvances(s, invokes, events, k, p, TakeNext(s));
  }

  lemma {:induction false} QuiesceKeeps(s: State, invokes: seq<InvokeEvent>, events: seq<Event>)
    requires Invariant(s, invokes, events)
    ensures Invariant(Quiesce(s), invokes, events)
    decreases !s.initHandled, |s.telemetryEventQueue|, |s.invokeEventQueue|
  {
    if CanOpen(s) {
      OpenKeeps(s, invokes, events);
      QuiesceKeeps(Step(s), invokes, events);
    } else if CanTake(s) {
      if s.initHandled {
        NormalKeeps(s, invokes, events);
      } else if IsInit(s.telemetryEventQueue[0]) {
        if s.initHandlingStarted {
          NextInitKeeps(s, invokes, events);
        } else {
          FirstInitKeeps(s, invokes, events);
        }
      } else if s.initHandlingStarted
                && s.telemetryEventQueue[0].record == PlatformStart(s.invocation.value.invoke.requestId) {
        ReplayKeeps(s, invokes, events);
      } else {
        HoldKeeps(s, invokes, events);
      }
      QuiesceKeeps(Step(s), invokes, events);
    }
  }

  // ---------------------------------------------------------------------------
  // What a run has done once it is quiescent.

  lemma {:induction false} OrdinalMonotone(events: seq<Event>, k: nat, p: nat, i: nat, j: nat)
    requires p <= |events| && i <= j <= |events|
    ensures Ordinal(events, k, p, i) <= Ordinal(events, k, p, j)
    decreases j
  {
    if i < j {
      OrdinalMonotone(events, k, p, i, j - 1);
    }
  }

  lemma QueuedInvariant(invokes: seq<InvokeEvent>, events: seq<Event>)
    ensures Invariant(AllQueued(invokes, events), invokes, events)
  {
    assert WithoutSpans(AllQueued(invokes, events).invokeEventQueue) == invokes;
  }

  lemma OnlyOneReplay(events: seq<Event>, r: string, p: nat, p': nat, k: nat, k': nat)
    requires ReplayAt(events, r, p) && ReplayAt(events, r, p') && LastInit(events, p, k) && LastInit(events, p', k')
    ensures p == p' && k == k'
  {}

  /** Every event that arrived has been processed, or waits in the half-processed buffer, or in the queue:
      exactly once, and in order. */
  lemma EventsConserved(inputs: seq<Input>)
    ensures var s, events := Run(inputs), EventsOf(inputs);
            var t := EventTrace(s.trace);
            && EventsIn(t) + s.halfProcessedEventBuffer + s.telemetryEventQueue == events
            && (s.initHandled ==> s.halfProcessedEventBuffer == [])
            && (s.halfProcessedEventBuffer == [] || s.telemetryEventQueue == [])
  {
    var s := RunInvariant(inputs);
  }

  /** Nothing arrived on one of the channels, or the start of the first invocation arrived after an init start. */
  ghost predicate NothingHeldBack(invokes: seq<InvokeEvent>, events: seq<Event>) {
    invokes == [] || events == [] || !NoReplayBefore(events, invokes[0].requestId, |events|)
  }

  /** The shutdown flush drains the event queue only. It completes the account of what arrived exactly
      when nothing is held back. */
  lemma FlushCompletes(inputs: seq<Input>, context: FunctionContext)
    ensures EventsIn(EventTrace(Flush(Run(inputs), context).trace)) == EventsOf(inputs)
       <==> NothingHeldBack(InvokesOf(inputs), EventsOf(inputs))
  {
    EventsConserved(inputs);
    FlushAccount(Run(inputs), context);
    var s := RunInvariant(inputs);
    HalfEmptyExactlyWhen(s, InvokesOf(inputs), EventsOf(inputs));
  }

  /** The flush puts out the events that are queued, in one degraded chunk of their own, and nothing that arrives
      later is processed: events stay in the queue, no invocation is opened, no chunk is made. */
  lemma {:induction false} FlushIsFinal(s: State, context: FunctionContext, later: seq<Input>)
    ensures var t := RunFrom(Flush(s, context), later);
            && t.shutdownFlushStarted
            && EventTrace(t.trace) == EventTrace(s.trace) + TreatAll(s.telemetryEventQueue, Degraded(s.chunks, context))
            && t.telemetryEventQueue == EventsOf(later)
            && t.halfProcessedEventBuffer == s.halfProcessedEventBuffer
            && t.openings == s.openings && t.chunks == s.chunks + 1
  {
    if later == [] {
      EventTraceAppend(s.trace, HandleAll(s.telemetryEventQueue, Degraded(s.chunks, context)));
      HandleAllTraces(s.telemetryEventQueue, Degraded(s.chunks, context));
    } else {
      var front := later[..|later| - 1];
      FlushIsFinal(s, context, front);
      LaterIsQueued(RunFrom(Flush(s, context), front), Last(later));
      assert EventsOf(front) + [] == EventsOf(front);
    }
  }

  lemma LaterIsQueued(s: State, input: Input)
    requires s.shutdownFlushStarted
    ensures var t := Receive(s, input);
            && EventTrace(t.trace) == EventTrace(s.trace)
            && t.telemetryEventQueue == s.telemetryEventQueue + (if input.TelemetryReceived? then input.events else [])
            && t == s.(invokeEventQueue := t.invokeEventQueue, telemetryEventQueue := t.telemetryEventQueue,
                       functionSpansBuffer := t.functionSpansBuffer, trace := t.trace)
  {
    if input.SpansReceived? && s.invocation.Some? {
      var action := HandledSpans(s.invocation.value.ordinal, input.spans);
      EventTraceAppend(s.trace, [action]);
      assert EventTrace([action]) == EventTrace([action][..0]) + [];
    }
  }

  lemma HalfEmptyExactlyWhen(s: State, invokes: seq<InvokeEvent>, events: seq<Event>)
    requires Invariant(s, invokes, events) && Quiescent(s)
    ensures s.halfProcessedEventBuffer == [] <==> NothingHeldBack(invokes, events)
  {
    assert |EventsIn(EventTrace(s.trace))| == |EventTrace(s.trace)|;
    assert |WithoutSpans(s.invokeEventQueue)| == |s.invokeEventQueue|;
    if s.initHandled {
      var k: nat, p: nat :| AfterInit(s, invokes, events, k, p);
      assert events[p].record == PlatformStart(invokes[0].requestId) && InitBefore(events, p);
    } else if invokes != [] {
      assert s.telemetryEventQueue == [];
      if !s.initHandlingStarted {
        assert s.halfProcessedEventBuffer == events;
      }
    }
  }

  /** A single log before any init start is never processed, not even by the flush. */
  lemma FlushMayFallShort(e: InvokeEvent, context: FunctionContext)
    ensures var events := [Event(1, FunctionLog("log"))];
            EventsIn(EventTrace(Flush(Run([Invoked(e), TelemetryReceived(events)]), context).trace)) != events
  {
    var events := [Event(1, FunctionLog("log"))];
    var inputs := [Invoked(e), TelemetryReceived(events)];
    assert inputs[..1] == [Invoked(e)] && [Invoked(e)][..0] == [];
    assert Last([Invoked(e)]) == Invoked(e) && InvokesOf([]) == [] && EventsOf([]) == [];
    assert EventsOf([Invoked(e)]) == [] + [] == [] && InvokesOf([Invoked(e)]) == [] + [e] == [e];
    assert Last(inputs) == TelemetryReceived(events);
    assert EventsOf(inputs) == [] + events == events && InvokesOf(inputs) == [e] + [] == [e];
    FlushCompletes(inputs, context);
  }

  lemma FlushAccount(s: State, context: FunctionContext)
    ensures EventsIn(EventTrace(Flush(s, context).trace))
            == EventsIn(EventTrace(s.trace)) + s.halfProcessedEventBuffer + s.telemetryEventQueue
       <==> s.halfProcessedEventBuffer == []
  {
    var how := Degraded(s.chunks, context);
    EventTraceAppend(s.trace, HandleAll(s.telemetryEventQueue, how));
    HandleAllTraces(s.telemetryEventQueue, how);
    assert EventsIn(EventTrace(Flush(s, context).trace)) == EventsIn(EventTrace(s.trace)) + s.telemetryEventQueue;
    NothingBetween(EventsIn(EventTrace(s.trace)), s.halfProcessedEventBuffer, s.telemetryEventQueue);
  }

  /** The invariant carries over to the state of any run, up to spans. */
  lemma RunInvariant(inputs: seq<Input>) returns (s: State)
    ensures SameButSpans(Run(inputs), s) && Quiescent(s)
    ensures Invariant(s, InvokesOf(inputs), EventsOf(inputs))
  {
    s := Quiesce(AllQueued(InvokesOf(inputs), EventsOf(inputs)));
    RunIsOneShot(inputs);
    QueuedInvariant(InvokesOf(inputs), EventsOf(inputs));
    QuiesceKeeps(AllQueued(InvokesOf(inputs), EventsOf(inputs)), InvokesOf(inputs), EventsOf(inputs));
    QuiesceIsQuiescent(AllQueued(InvokesOf(inputs), EventsOf(inputs)));
  }

  /** Until an invocation arrives nothing happens. Until its start event follows an init start, whole
      chunks go out in degraded mode, up to the last init start. */
  lemma AttributionBeforeReplay(inputs: seq<Input>)
    ensures var s, invokes, events := Run(inputs), InvokesOf(inputs), EventsOf(inputs);
            var t := EventTrace(s.trace);
            && (invokes == [] ==> t == [] && s.telemetryEventQueue == events)
            && (invokes != [] && NoReplayBefore(events, invokes[0].requestId, |events|) ==>
                  && s.telemetryEventQueue == [] && !s.initHandled
                  && (if InitBefore(events, |events|) then LastInit(events, |events|, |t|) else t == [])
                  && forall i :: 0 <= i < |t| ==> t[i].how == Degraded(Chunk(events, i), invokes[0].context))
  {
    var s := RunInvariant(inputs);
    assert |WithoutSpans(s.invokeEventQueue)| == |s.invokeEventQueue|;
    assert |WithoutSpans(Run(inputs).invokeEventQueue)| == |Run(inputs).invokeEventQueue|;
  }

  /** Once a start event p of the first invocation follows an init start, with k the last init start
      before it: the events before k were processed in degraded mode, one chunk per init start; the events
      from k on were processed normally, each on the invocation whose number is the number of
      invocations that ended before it, as far as there are invocations. */
  lemma AttributionAfterReplay(inputs: seq<Input>, k: nat, p: nat)
    requires InvokesOf(inputs) != []
    requires ReplayAt(EventsOf(inputs), InvokesOf(inputs)[0].requestId, p) && LastInit(EventsOf(inputs), p, k)
    ensures var invokes, events := InvokesOf(inputs), EventsOf(inputs);
            var t := EventTrace(Run(inputs).trace);
            && Run(inputs).initHandled
            && (forall i :: 0 <= i < |t| ==>
                  i < |events| && t[i].how == TreatmentOf(events, invokes[0].context, k, p, i))
            && forall i :: 0 <= i < |events| ==> (i < |t| <==> i < k || Ordinal(events, k, p, i) < |invokes|)
  {
    var s := RunInvariant(inputs);
    QuiescentAfterReplay(s, InvokesOf(inputs), EventsOf(inputs), k, p);
  }

  lemma QuiescentAfterReplay(s: State, invokes: seq<InvokeEvent>, events: seq<Event>, k: nat, p: nat)
    requires Invariant(s, invokes, events) && Quiescent(s) && invokes != []
    requires ReplayAt(events, invokes[0].requestId, p) && LastInit(events, p, k)
    ensures s.initHandled && |EventTrace(s.trace)| <= |events| && AfterInit(s, invokes, events, k, p)
    ensures forall i :: 0 <= i < |events| ==>
              (i < |EventTrace(s.trace)| <==> i < k || Ordinal(events, k, p, i) < |invokes|)
  {
    var n := |EventTrace(s.trace)|;
    assert |EventsIn(EventTrace(s.trace))| == n && |WithoutSpans(s.invokeEventQueue)| == |s.invokeEventQueue|;
    assert s.initHandled;
    var k', p' :| AfterInit(s, invokes, events, k', p');
    OnlyOneReplay(events, invokes[0].requestId, p, p', k, k');
    forall i | k <= i < |events| ensures i < n <==> Ordinal(events, k, p, i) < |invokes| {
      HandledExactly(s, invokes, events, k, p, i);
    }
  }

  lemma HandledExactly(s: State, invokes: seq<InvokeEvent>, events: seq<Event>, k: nat, p: nat, i: nat)
    requires |EventTrace(s.trace)| <= |events| && AfterInit(s, invokes, events, k, p) && k <= i < |events|
    requires InvokesConserved(s, invokes) && Quiescent(s)
    requires s.telemetryEventQueue == [] ==> |EventTrace(s.trace)| == |events|
    ensures i < |EventTrace(s.trace)| <==> Ordinal(events, k, p, i) < |invokes|
  {
    var n := |EventTrace(s.trace)|;
    if i < n {
      OrdinalMonotone(events, k, p, i, n - 1);
      OrdinalMonotone(events, k, p, n - 1, n);
    } else {
      OrdinalMonotone(events, k, p, n, i);
    }
  }
}
