/** When the service reports that an invocation is done, in terms of what arrived
    (src/telemetry/telemetry_service.rs). */
module InvocationDone {
  import opened Sequences
  import opened Telemetry
  import opened EventMerge
  import opened Attribution
  import opened InvocationEvents
  import opened SpanAttribution
  import opened SpanTiming
  import opened DoneFlag
  import Confluence

  /** Event c is a runtime-done event, not among the replayed ones, and can be processed on its invocation. */
  ghost predicate DoneReady(inputs: seq<Input>, k: nat, p: nat, c: nat) {
    && Replayed(inputs, k, p) && p <= c < |EventsOf(inputs)| && IsDoneEvent(EventsOf(inputs)[c])
    && Ready(inputs, Ordinal(EventsOf(inputs), k, p, c), c)
  }

  /** With what has arrived since `before`, some such event can be processed that could not be before. */
  ghost predicate FinishesRuntime(before: seq<Input>, after: seq<Input>) {
    exists k: nat, p: nat, c: nat ::
      DoneReady(after, k, p, c) && !Ready(before, Ordinal(EventsOf(after), k, p, c), c)
  }

  /** The replay ends in front of the start event p. */
  lemma ReplayEndsAt(inputs: seq<Input>, k: nat, p: nat)
    requires Replayed(inputs, k, p)
    ensures EventMerge.Run(inputs).replayEnd == p
  {
    var s := RunInvariant(inputs);
    RunAfterReplay(inputs, k, p);
    var k', p' :| AfterInit(s, InvokesOf(inputs), EventsOf(inputs), k', p');
    OnlyOneReplay(EventsOf(inputs), InvokesOf(inputs)[0].requestId, p, p', k, k');
  }

  /** Which events are runtime-done events processed on an invocation. */
  lemma DoneExactly(inputs: seq<Input>, k: nat, p: nat, c: nat)
    requires Replayed(inputs, k, p) && p <= c
    ensures DoneOnInvocation(EventMerge.Run(inputs).trace, c) <==> DoneReady(inputs, k, p, c)
  {
    var trace, events := EventMerge.Run(inputs).trace, EventsOf(inputs);
    RunAfterReplay(inputs, k, p);
    StartArrivedExactly(inputs);
    if c < |events| {
      var j := Ordinal(events, k, p, c);
      HandledWhenReady(inputs, k, p, j, c);
      if j < |InvokesOf(inputs)| {
        InvocationEvents.HandledExactly(inputs, k, p, j, c);
      } else {
        AttributionAfterReplay(inputs, k, p);
      }
    }
  }

  lemma ProcessedBefore(inputs: seq<Input>, j: nat, c: nat)
    requires inputs != [] && HandledOn(EventMerge.Run(inputs).trace, j, c)
    requires EventTrace(EventMerge.Run(inputs[..|inputs| - 1]).trace) <= EventTrace(EventMerge.Run(inputs).trace)
    ensures c < |EventTrace(EventMerge.Run(inputs[..|inputs| - 1]).trace)| <==> Ready(inputs[..|inputs| - 1], j, c)
  {
    var front := inputs[..|inputs| - 1];
    if Ready(front, j, c) {
      HandledIfReady(front, inputs, j, c);
    } else if c < |EventTrace(EventMerge.Run(front).trace)| {
      assert HandledOn(EventMerge.Run(front).trace, j, c);
      var k, p := ReadyIfHandled(front, j, c);
    }
  }

  lemma TraceGrows(inputs: seq<Input>)
    requires inputs != [] && !Last(inputs).SpansReceived?
    ensures EventTrace(EventMerge.Run(inputs[..|inputs| - 1]).trace) <= EventTrace(EventMerge.Run(inputs).trace)
    ensures EventMerge.Run(inputs[..|inputs| - 1]).initHandled ==> EventMerge.Run(inputs).initHandled
  {
    var front := inputs[..|inputs| - 1];
    var s := EventMerge.Run(front);
    var pushed := match Last(inputs)
      case Invoked(e) => PushInvoke(s, e)
      case TelemetryReceived(es) => PushTelemetry(s, es)
      case SpansReceived(_) => s;
    var added := ProcessAdds(pushed);
    EventTraceAppend(s.trace, added);
    if s.initHandled {
      var k, p := ReplayOf(front);
      ReplayStays(inputs, k, p);
      RunAfterReplay(inputs, k, p);
    }
  }

  /** Nothing is processed on an invocation before normal processing starts. */
  lemma NotDoneBefore(inputs: seq<Input>, c: nat)
    requires !EventMerge.Run(inputs).initHandled
    ensures !DoneOnInvocation(EventMerge.Run(inputs).trace, c)
  {
    var s := RunInvariant(inputs);
    assert |EventsIn(EventTrace(s.trace))| == |EventTrace(s.trace)|;
  }

  /** For whatever arrives and however it is interleaved: processing what arrives reports that an invocation is done if
      and only if it makes a runtime-done event ready that is not among the replayed events. */
  lemma DoneExactlyWhen(inputs: seq<Input>)
    requires inputs != [] && !Last(inputs).SpansReceived?
    ensures DoneSince(EventMerge.Run(inputs[..|inputs| - 1]), EventMerge.Run(inputs))
       <==> FinishesRuntime(inputs[..|inputs| - 1], inputs)
  {
    var front := inputs[..|inputs| - 1];
    var s, s' := EventMerge.Run(front), EventMerge.Run(inputs);
    TraceGrows(inputs);
    if s'.initHandled {
      var k, p := ReplayOf(inputs);
      ReplayEndsAt(inputs, k, p);
      NewOnesAfterReplay(front, inputs, k, p);
      forall c: nat | p <= c
        ensures |EventTrace(s.trace)| <= c && DoneOnInvocation(s'.trace, c)
           <==> DoneReady(inputs, k, p, c) && !Ready(front, Ordinal(EventsOf(inputs), k, p, c), c)
      {
        DoneNow(inputs, k, p, c);
      }
      forall k': nat, p': nat, c: nat | DoneReady(inputs, k', p', c) ensures k' == k && p' == p {
        OneReplay(inputs, k, p, k', p');
      }
    } else {
      forall c: nat ensures !DoneOnInvocation(s'.trace, c) {
        NotDoneBefore(inputs, c);
      }
      forall k: nat, p: nat, c: nat | DoneReady(inputs, k, p, c) ensures false {
        RunAfterReplay(inputs, k, p);
      }
    }
  }

  lemma NewOnesAfterReplay(front: seq<Input>, inputs: seq<Input>, k: nat, p: nat)
    requires inputs != [] && front == inputs[..|inputs| - 1] && Replayed(inputs, k, p)
    ensures EventMerge.Run(front).initHandled ==> p <= |EventTrace(EventMerge.Run(front).trace)|
  {
    if EventMerge.Run(front).initHandled {
      var k', p' := ReplayOf(front);
      ReplayStays(inputs, k', p');
      OneReplay(inputs, k, p, k', p');
      RunAfterReplay(front, k, p);
    }
  }

  lemma DoneNow(inputs: seq<Input>, k: nat, p: nat, c: nat)
    requires inputs != [] && !Last(inputs).SpansReceived? && Replayed(inputs, k, p) && p <= c
    ensures var s, s' := EventMerge.Run(inputs[..|inputs| - 1]), EventMerge.Run(inputs);
            |EventTrace(s.trace)| <= c && DoneOnInvocation(s'.trace, c)
            <==> DoneReady(inputs, k, p, c)
                 && !Ready(inputs[..|inputs| - 1], Ordinal(EventsOf(inputs), k, p, c), c)
  {
    DoneExactly(inputs, k, p, c);
    if DoneReady(inputs, k, p, c) {
      var j := Ordinal(EventsOf(inputs), k, p, c);
      HandledWhenReady(inputs, k, p, j, c);
      TraceGrows(inputs);
      ProcessedBefore(inputs, j, c);
    }
  }
}
