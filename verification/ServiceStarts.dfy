/** The start logs of the whole service, from arrival to output, across invocations and degraded chunks
    (src/telemetry/telemetry_service.rs, src/telemetry/processor/telemetry_processor.rs). */
module ServiceStarts {
  import opened Sequences
  import opened Telemetry
  import opened InvocationProcessing
  import opened DelayedLogs
  import opened Correlation
  import opened DegradedProcessing
  import opened InvocationRuns
  import opened EventMerge
  import opened Ledgers
  import opened StartLogs
  import opened ServiceLogs
  import Attribution
  import P = InvocationProcessing

  /** The start logs to make for events. */
  function StartsOf(es: seq<Event>): seq<Draft> {
    if es == [] then [] else StartsOf(es[..|es| - 1]) + StartIn(OnEvent(Last(es), []))
  }

  lemma StartsOfNext(es: seq<Event>, e: Event)
    ensures StartsOf(es + [e]) == StartsOf(es) + StartIn(OnEvent(e, []))
  {
    assert (es + [e])[..|es|] == es;
  }

  lemma {:induction false} StartsOfAppend(a: seq<Event>, b: seq<Event>)
    ensures StartsOf(a + b) == StartsOf(a) + StartsOf(b)
  {
    if b == [] {
      assert a + b == a;
    } else {
      var front := b[..|b| - 1];
      StartsOfAppend(a, front);
      StartsOfNext(a + front, Last(b));
      assert a + b == a + front + [Last(b)];
      Associative(StartsOf(a), StartsOf(front), StartIn(OnEvent(Last(b), [])));
    }
  }

  function ProcessedEvents(trace: seq<Action>): seq<Event> {
    Attribution.EventsIn(EventTrace(trace))
  }

  function ActionStart(a: Action): seq<Draft> {
    match a
    case Handled(e, _) => StartIn(OnEvent(e, []))
    case HandledSpans(_, _) => []
  }

  lemma ProcessedNext(trace: seq<Action>, a: Action)
    ensures StartsOf(ProcessedEvents(trace + [a])) == StartsOf(ProcessedEvents(trace)) + ActionStart(a)
  {
    assert (trace + [a])[..|trace|] == trace;
    if a.Handled? {
      assert ProcessedEvents(trace + [a]) == ProcessedEvents(trace) + [a.event];
      StartsOfNext(ProcessedEvents(trace), a.event);
    } else {
      assert ProcessedEvents(trace + [a]) == ProcessedEvents(trace);
    }
  }

  // ---------------------------------------------------------------------------
  // One action.

  /** What a step does to the start logs of an invocation that held `held` of them: during the delay a start log
      replaces one that waits. */
  lemma StartFlows(out: seq<Draft>, after: seq<Draft>, before: seq<Draft>, start: seq<Draft>, delaying: bool, held: nat)
    requires |start| <= 1 && out + after == if delaying && start != [] then start else before + start
    requires delaying ==> |before| == if held == 0 then 0 else 1
    ensures var held' := held + if delaying then |start| else 0;
            FlowsThrough(out, after, before, start, held' > 1, held > 1)
  {
    assert |out + after| == |out| + |after|;
    assert before == [] ==> before + start == start;
  }

  /** What waits during the delay. */
  lemma WaitsOne(config: Config, invoke: InvokeEvent, steps: seq<P.Step>)
    requires config.structuredLogs && config.logStart
    ensures var s := P.Run(config, invoke, steps).state;
            && (s.delayingLogs <==> NothingReleases(config, steps))
            && (s.delayingLogs ==> |Pending(s)| == if HeldStarts(config, steps) == 0 then 0 else 1)
  {
    DelayedExactlyWhen(config, invoke, steps);
    StartsBalance(config, invoke, steps);
    HeldStartsAreDelayed(config, invoke, steps);
    StartSeen(config, invoke, steps);
  }

  lemma StepFlows(config: Config, invoke: InvokeEvent, steps: seq<P.Step>, step: P.Step)
    requires config.structuredLogs && config.logStart
    ensures var s := P.Run(config, invoke, steps).state;
            FlowsThrough(Starts(DraftsOf(config, s, step)), Pending(P.Run(config, invoke, steps + [step]).state),
                         Pending(s), StartIn(step),
                         HeldStarts(config, steps + [step]) > 1, HeldStarts(config, steps) > 1)
  {
    var s := P.Run(config, invoke, steps).state;
    RunOne(config, invoke, steps, step);
    FunctionLogsConserved(config, invoke, steps);
    StepPasses(config, s, step);
    WaitsOne(config, invoke, steps);
    assert (steps + [step])[..|steps|] == steps;
    StartFlows(Starts(DraftsOf(config, s, step)), Pending(NextState(config, s, step)), Pending(s), StartIn(step),
               s.delayingLogs, HeldStarts(config, steps));
  }

  // ---------------------------------------------------------------------------
  // The books of the start logs; one that is replaced is dropped.

  /** The start log that waits with invocation j. */
  function WaitingStart(g: Setting, trace: seq<Action>, j: nat): seq<Draft> {
    Pending(g.StateOf(trace, j))
  }

  ghost predicate ReplacedStart(g: Setting, trace: seq<Action>, j: nat) {
    HeldStarts(g.config, StepsOn(trace, j, g.ids)) > 1
  }

  ghost function StartBooks(g: Setting, trace: seq<Action>): Books<Draft> {
    Books(Starts(g.Output(trace)), StartsOf(ProcessedEvents(trace)),
          (j: nat) => WaitingStart(g, trace, j), (j: nat) => ReplacedStart(g, trace, j))
  }

  lemma StartsElsewhere(g: Setting, trace: seq<Action>, a: Action, j: nat)
    requires !IsOn(a, j)
    ensures WaitingStart(g, trace + [a], j) == WaitingStart(g, trace, j)
    ensures ReplacedStart(g, trace + [a], j) <==> ReplacedStart(g, trace, j)
  {
    StepsNext(g, trace, a, j);
    assert StepsOn(trace, j, g.ids) + [] == StepsOn(trace, j, g.ids);
  }

  lemma StartsOnIt(g: Setting, trace: seq<Action>, a: Action, j: nat)
    requires IsOn(a, j) && g.config.structuredLogs && g.config.logStart
    ensures FlowsThrough(Starts(g.ActionDrafts(trace, a)), WaitingStart(g, trace + [a], j), WaitingStart(g, trace, j),
                         ActionStart(a), ReplacedStart(g, trace + [a], j), ReplacedStart(g, trace, j))
    ensures ReplacedStart(g, trace, j) ==> ReplacedStart(g, trace + [a], j)
  {
    var steps, step := StepsOn(trace, j, g.ids), StepOf(g, trace, a);
    StepsNext(g, trace, a, j);
    StepFlows(g.config, g.invokeOf(j), steps, step);
    assert (steps + [step])[..|steps|] == steps;
    assert g.ActionDrafts(trace, a) == DraftsOf(g.config, g.StateOf(trace, j), step);
    assert ActionStart(a) == StartIn(step);
  }

  lemma StartsMove(g: Setting, trace: seq<Action>, a: Action, j: nat, b: Books<Draft>, b': Books<Draft>)
    requires IsOn(a, j) && g.config.structuredLogs && g.config.logStart
    requires b == StartBooks(g, trace) && b' == StartBooks(g, trace + [a])
    ensures Moves(b, b', j)
  {
    forall i: nat | i != j
      ensures WaitingStart(g, trace + [a], i) == WaitingStart(g, trace, i)
      ensures ReplacedStart(g, trace + [a], i) <==> ReplacedStart(g, trace, i)
    {
      StartsElsewhere(g, trace, a, i);
    }
    OutputNext(g, trace, a);
    ProcessedNext(trace, a);
    ProjectionsAppend(g.Output(trace), g.ActionDrafts(trace, a));
    StartsOnIt(g, trace, a, j);
  }

  lemma StartsBypass(g: Setting, trace: seq<Action>, e: Event, how: Treatment)
    requires how.Degraded? && g.config.structuredLogs && g.config.logStart
    ensures Bypasses(StartBooks(g, trace), StartBooks(g, trace + [Handled(e, how)]))
  {
    var a := Handled(e, how);
    forall i: nat
      ensures WaitingStart(g, trace + [a], i) == WaitingStart(g, trace, i)
      ensures ReplacedStart(g, trace + [a], i) <==> ReplacedStart(g, trace, i)
    {
      StartsElsewhere(g, trace, a, i);
    }
    OutputNext(g, trace, a);
    ProcessedNext(trace, a);
    ProjectionsAppend(g.Output(trace), g.ActionDrafts(trace, a));
    OneDegraded(g.config, e, []);
  }

  lemma StartsFollow(g: Setting, trace: seq<Action>, a: Action)
    requires g.config.structuredLogs && g.config.logStart
    ensures Follows(StartBooks(g, trace), StartBooks(g, trace + [a]), a)
  {
    match a
    case Handled(e, OnInvocation(j)) => StartsMove(g, trace, a, j, StartBooks(g, trace), StartBooks(g, trace + [a]));
    case Handled(e, Degraded(_, _)) => StartsBypass(g, trace, e, a.how);
    case HandledSpans(j, _) =>
      StartsMove(g, trace, a, j, StartBooks(g, trace), StartBooks(g, trace + [a]));
      ProcessedNext(trace, a);
  }

  /** The ledger of a setting. */
  ghost predicate KeepsStarts(g: Setting, ledger: Ledger<Draft>) {
    forall trace :: KeepsStartsAt(g, ledger, trace)
  }

  ghost predicate KeepsStartsAt(g: Setting, ledger: Ledger<Draft>, trace: seq<Action>) {
    ledger(trace) == StartBooks(g, trace)
  }

  lemma StartLedgerFollows(g: Setting, ledger: Ledger<Draft>, trace: seq<Action>, a: Action)
    requires g.config.structuredLogs && g.config.logStart
    requires ledger(trace) == StartBooks(g, trace) && ledger(trace + [a]) == StartBooks(g, trace + [a])
    ensures FollowsAt(ledger, trace, a)
  {
    StartsFollow(g, trace, a);
  }

  lemma StartLedgerIsLawful(g: Setting, ledger: Ledger<Draft>)
    requires g.config.structuredLogs && g.config.logStart && KeepsStarts(g, ledger)
    ensures Lawful(ledger) && Empty(ledger([]))
  {
    forall trace, a ensures FollowsAt(ledger, trace, a) {
      assert KeepsStartsAt(g, ledger, trace) && KeepsStartsAt(g, ledger, trace + [a]);
      StartLedgerFollows(g, ledger, trace, a);
    }
    assert KeepsStartsAt(g, ledger, []);
    forall j: nat ensures WaitingStart(g, [], j) == [] && !ReplacedStart(g, [], j) {}
  }

  lemma StartsInBalance(g: Setting, ledger: Ledger<Draft>, inputs: seq<Input>)
    requires g.config.structuredLogs && g.config.logStart && KeepsStarts(g, ledger)
    ensures var s := EventMerge.Run(inputs);
            && Balanced(ledger(s.trace), s.openings, s.invocation.Some?)
            && (s.invocation.Some? ==> s.invocation.value.ordinal + 1 == s.openings)
  {
    StartLedgerIsLawful(g, ledger);
    RunAccounts(ledger, inputs);
  }

  // ---------------------------------------------------------------------------
  // From arrival to output.

  /** The start log that waits with the open invocation. */
  function OpenStart(g: Setting, s: State): seq<Draft> {
    if s.invocation.Some? then WaitingStart(g, s.trace, s.invocation.value.ordinal) else []
  }

  /** The start logs of the start events that arrived are what went out, then what waits with the open invocation, in
      the half-processed buffer and in the queue: each exactly once and in order. */
  ghost predicate AllStartsThere(g: Setting, s: State, arrived: seq<Event>) {
    Starts(g.Output(s.trace)) + OpenStart(g, s)
    + StartsOf(s.halfProcessedEventBuffer) + StartsOf(s.telemetryEventQueue)
    == StartsOf(arrived)
  }

  ghost predicate ReplacesStart(g: Setting, s: State, j: nat) {
    HeldStarts(g.config, StepsOn(s.trace, j, g.ids)) > 1
  }

  ghost predicate KeepsBackStart(g: Setting, s: State, j: nat) {
    var steps := StepsOn(s.trace, j, g.ids);
    !IsOpen(s, j) && NothingReleases(g.config, steps) && StartsIn(steps) != []
  }

  /** No invocation replaced a start log, and none was closed with one that nothing released. */
  ghost predicate NoStartLost(g: Setting, s: State) {
    forall j: nat :: j < s.openings ==> !ReplacesStart(g, s, j) && !KeepsBackStart(g, s, j)
  }

  lemma LetGoUnlessLost(g: Setting, s: State)
    requires g.config.structuredLogs
    ensures AllLetGo(StartBooks(g, s.trace), s) <==> NoStartLost(g, s)
  {
    forall j: nat ensures (!IsOpen(s, j) && WaitingStart(g, s.trace, j) != []) <==> KeepsBackStart(g, s, j) {
      WaitsExactlyWhen(g.config, g.invokeOf(j), StepsOn(s.trace, j, g.ids));
    }
    assert forall j: nat :: StartBooks(g, s.trace).dropped(j) <==> ReplacesStart(g, s, j);
  }

  lemma ArrivedStarts(inputs: seq<Input>)
    ensures var s := EventMerge.Run(inputs);
            StartsOf(ProcessedEvents(s.trace)) + StartsOf(s.halfProcessedEventBuffer) + StartsOf(s.telemetryEventQueue)
            == StartsOf(EventsOf(inputs))
  {
    var s := EventMerge.Run(inputs);
    Attribution.EventsConserved(inputs);
    StartsOfAppend(ProcessedEvents(s.trace), s.halfProcessedEventBuffer);
    StartsOfAppend(ProcessedEvents(s.trace) + s.halfProcessedEventBuffer, s.telemetryEventQueue);
  }

  lemma AllStartsUnlessLost(g: Setting, inputs: seq<Input>)
    requires g.config.structuredLogs && g.config.logStart
    ensures AllStartsThere(g, EventMerge.Run(inputs), EventsOf(inputs)) <==> NoStartLost(g, EventMerge.Run(inputs))
  {
    var s := EventMerge.Run(inputs);
    ArrivedStarts(inputs);
    var ledger: Ledger<Draft> := trace => StartBooks(g, trace);
    assert KeepsStarts(g, ledger) by {
      forall trace ensures KeepsStartsAt(g, ledger, trace) {}
    }
    StartsInBalance(g, ledger, inputs);
    assert KeepsStartsAt(g, ledger, s.trace);
    LetGoUnlessLost(g, s);
    BooksTell(StartBooks(g, s.trace), s);
    assert HeldByOpen(StartBooks(g, s.trace), s) == OpenStart(g, s);
    SameSuffix(Starts(g.Output(s.trace)) + OpenStart(g, s), StartsOf(ProcessedEvents(s.trace)),
               StartsOf(s.halfProcessedEventBuffer), StartsOf(s.telemetryEventQueue));
  }
}
