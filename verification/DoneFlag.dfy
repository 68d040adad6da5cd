/** When processing reports that an invocation is done: at least one runtime-done event was processed normally, not in
    degraded mode and not among the replayed events (src/telemetry/telemetry_service.rs). */
module DoneFlag {
  import opened Sequences
  import opened Telemetry
  import opened EventMerge
  import Confluence

  /** Event number c is a runtime-done event that was processed on an invocation. */
  ghost predicate DoneOnInvocation(trace: seq<Action>, c: nat) {
    && c < |EventTrace(trace)| && EventTrace(trace)[c].how.OnInvocation?
    && EventTrace(trace)[c].event.record.PlatformRuntimeDone?
  }

  /** Between two states such an event was processed, and it was not among the replayed ones. */
  ghost predicate DoneSince(before: State, after: State) {
    exists c: nat :: |EventTrace(before.trace)| <= c && DoneOnInvocation(after.trace, c)
                     && (before.initHandled || (after.initHandled && after.replayEnd <= c))
  }

  /** What holds between any two states of processing. */
  ghost predicate Progress(before: State, after: State) {
    && EventTrace(before.trace) <= EventTrace(after.trace)
    && (before.initHandled ==> after.initHandled)
    && (!before.initHandled && after.initHandled ==> after.replayEnd <= |EventTrace(after.trace)|)
  }

  lemma OpenProgress(s0: State, s: State)
    requires Progress(s0, s) && CanOpen(s)
    ensures EventTrace(OpenNext(s).trace) == EventTrace(s.trace)
    ensures Progress(s0, OpenNext(s)) && (DoneSince(s0, OpenNext(s)) <==> DoneSince(s0, s))
  {
    Confluence.OnlySpans(s.trace, [HandledSpans(s.openings, s.functionSpansBuffer),
                                   HandledSpans(s.openings, s.invokeEventQueue[0].spans)]);
    assert forall c: nat :: DoneOnInvocation(OpenNext(s).trace, c) <==> DoneOnInvocation(s.trace, c);
  }

  // ---------------------------------------------------------------------------
  // Taking an event.

  predicate Normally(s: State) {
    s.initHandlingStarted && s.initHandled
  }

  /** Normal processing adds the next event to those processed. */
  lemma NormalTake(s: State)
    requires CanTake(s) && Normally(s)
    ensures var treated := TreatedEvent(s.telemetryEventQueue[0], OnInvocation(s.invocation.value.ordinal));
            EventTrace(TakeNext(s).trace) == EventTrace(s.trace) + [treated]
    ensures TakeNext(s).initHandled && TakeNext(s).replayEnd == s.replayEnd
  {
    var a := Handled(s.telemetryEventQueue[0], OnInvocation(s.invocation.value.ordinal));
    assert TakeNext(s).trace == s.trace + [a];
    assert (s.trace + [a])[..|s.trace|] == s.trace;
  }

  /** The replay ends with the last of the events that it adds. */
  lemma ReplayTake(s: State)
    requires CanTake(s) && !s.initHandled && TakeNext(s).initHandled
    ensures EventTrace(s.trace) <= EventTrace(TakeNext(s).trace)
    ensures TakeNext(s).replayEnd == |EventTrace(TakeNext(s).trace)|
  {
    var how := OnInvocation(s.invocation.value.ordinal);
    EventTraceAppend(s.trace, HandleAll(s.halfProcessedEventBuffer, how));
    HandleAllTraces(s.halfProcessedEventBuffer, how);
  }

  /** Before normal processing, events are processed in degraded mode, if at all. */
  lemma HoldTake(s: State)
    requires CanTake(s) && !Normally(s) && TakeNext(s).initHandled == s.initHandled
    ensures EventTrace(s.trace) <= EventTrace(TakeNext(s).trace)
    ensures forall c: nat :: |EventTrace(s.trace)| <= c ==> !DoneOnInvocation(TakeNext(s).trace, c)
    ensures TakeNext(s).replayEnd == s.replayEnd
  {
    var es, how := Confluence.TakeAdds(s);
    EventTraceAppend(s.trace, HandleAll(es, how));
    HandleAllTraces(es, how);
    DegradedTake(s, es, how);
  }

  lemma DegradedTake(s: State, es: seq<Event>, how: Treatment)
    requires CanTake(s) && !Normally(s) && TakeNext(s).initHandled == s.initHandled
    requires TakeNext(s).trace == s.trace + HandleAll(es, how)
    ensures es == [] || how.Degraded?
    ensures TakeNext(s).replayEnd == s.replayEnd
  {
    var added := TakeNext(s).trace[|s.trace|..];
    assert added == HandleAll(es, how);
    assert forall a :: a in added ==> a.Handled? && a.how.Degraded?;
    assert es != [] ==> HandleAll(es, how)[0].how == how;
  }

  // ---------------------------------------------------------------------------

  lemma Kept(before: seq<Action>, after: seq<Action>)
    requires EventTrace(before) <= EventTrace(after)
    ensures forall c: nat :: c < |EventTrace(before)| ==> (DoneOnInvocation(after, c) <==> DoneOnInvocation(before, c))
  {}

  /** A step counts by itself exactly when it processes a runtime-done event normally. */
  lemma TakeCounts(s: State)
    requires CanTake(s)
    ensures DoneSince(s, TakeNext(s)) <==> Normally(s) && s.telemetryEventQueue[0].record.PlatformRuntimeDone?
  {
    var n := |EventTrace(s.trace)|;
    if Normally(s) {
      NormalTake(s);
      assert DoneOnInvocation(TakeNext(s).trace, n) <==> s.telemetryEventQueue[0].record.PlatformRuntimeDone?;
    } else if TakeNext(s).initHandled == s.initHandled {
      HoldTake(s);
    } else {
      ReplayTake(s);
    }
  }

  lemma TakeProgress(s0: State, s: State)
    requires Progress(s0, s) && CanTake(s)
    ensures Progress(s0, TakeNext(s))
    ensures DoneSince(s0, TakeNext(s)) <==> DoneSince(s0, s) || DoneSince(s, TakeNext(s))
  {
    if Normally(s) {
      NormalTake(s);
    } else if TakeNext(s).initHandled == s.initHandled {
      HoldTake(s);
    } else {
      ReplayTake(s);
    }
    Kept(s.trace, TakeNext(s).trace);
    DoneSinceNext(s0, s, TakeNext(s));
  }

  lemma DoneSinceNext(s0: State, s: State, s': State)
    requires Progress(s0, s) && EventTrace(s.trace) <= EventTrace(s'.trace)
    requires s.initHandled ==> s'.initHandled && s'.replayEnd == s.replayEnd
    requires !s.initHandled && s'.initHandled ==> s'.replayEnd == |EventTrace(s'.trace)|
    ensures DoneSince(s0, s') <==> DoneSince(s0, s) || DoneSince(s, s')
  {
    Kept(s.trace, s'.trace);
  }
}
