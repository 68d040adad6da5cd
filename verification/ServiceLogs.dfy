/** The function logs of the whole service, from arrival to output, across invocations and degraded chunks
    (src/telemetry/telemetry_service.rs, src/telemetry/processor/telemetry_processor.rs). */
module ServiceLogs {
  import opened Sequences
  import opened Telemetry
  import opened SpanCapture
  import opened InvocationProcessing
  import opened DelayedLogs
  import opened Correlation
  import opened DegradedProcessing
  import opened InvocationRuns
  import opened EventMerge
  import opened InvocationEvents
  import opened Ledgers
  import opened SpanAttribution
  import Attribution
  import P = InvocationProcessing

  /** What the service does not decide: its configuration, the contexts of invocations and random ids. */
  datatype Setting = Setting(config: Config, invokeOf: nat -> InvokeEvent, ids: nat -> Bytes) {
    function StateOf(trace: seq<Action>, j: nat): InvocationState {
      P.Run(config, invokeOf(j), StepsOn(trace, j, ids)).state
    }

    /** The function logs that invocation j holds back. */
    function Held(trace: seq<Action>, j: nat): seq<RawLog> {
      StateOf(trace, j).logs
    }

    /** What the next action puts out. */
    function ActionDrafts(trace: seq<Action>, a: Action): seq<Draft> {
      match a
      case Handled(e, OnInvocation(j)) => DraftsOf(config, StateOf(trace, j), OnEvent(e, ids(|trace|)))
      case Handled(e, Degraded(_, _)) => DegradedDrafts(config, e)
      case HandledSpans(j, rs) => DraftsOf(config, StateOf(trace, j), OnSpans(rs))
    }

    /** Everything that the service has put out. */
    function Output(trace: seq<Action>): seq<Draft> {
      if trace == [] then []
      else
        var front := trace[..|trace| - 1];
        Output(front) + ActionDrafts(front, Last(trace))
    }
  }

  function ActionText(config: Config, a: Action): seq<RawLog> {
    match a
    case Handled(e, _) => TextIn(config, OnEvent(e, []))
    case HandledSpans(_, _) => []
  }

  /** The regular function logs among the events processed. */
  function TraceTexts(config: Config, trace: seq<Action>): seq<RawLog> {
    if trace == [] then [] else TraceTexts(config, trace[..|trace| - 1]) + ActionText(config, Last(trace))
  }

  /** The regular function logs among events. */
  function EventTexts(config: Config, es: seq<Event>): seq<RawLog> {
    TextsIn(config, EventSteps(es))
  }

  // ---------------------------------------------------------------------------
  // One action.

  predicate IsOn(a: Action, j: nat) {
    match a
    case Handled(_, how) => how == OnInvocation(j)
    case HandledSpans(i, _) => i == j
  }

  function StepOf(g: Setting, trace: seq<Action>, a: Action): P.Step {
    match a
    case Handled(e, _) => OnEvent(e, g.ids(|trace|))
    case HandledSpans(_, rs) => OnSpans(rs)
  }

  lemma StepsNext(g: Setting, trace: seq<Action>, a: Action, j: nat)
    ensures StepsOn(trace + [a], j, g.ids)
         == StepsOn(trace, j, g.ids) + if IsOn(a, j) then [StepOf(g, trace, a)] else []
  {
    assert (trace + [a])[..|trace|] == trace;
  }

  lemma OutputNext(g: Setting, trace: seq<Action>, a: Action)
    ensures g.Output(trace + [a]) == g.Output(trace) + g.ActionDrafts(trace, a)
    ensures TraceTexts(g.config, trace + [a]) == TraceTexts(g.config, trace) + ActionText(g.config, a)
  {
    assert (trace + [a])[..|trace|] == trace;
  }

  lemma HeldElsewhere(g: Setting, trace: seq<Action>, a: Action, j: nat)
    requires !IsOn(a, j)
    ensures g.Held(trace + [a], j) == g.Held(trace, j)
  {
    StepsNext(g, trace, a, j);
    assert StepsOn(trace, j, g.ids) + [] == StepsOn(trace, j, g.ids);
  }

  lemma HeldOn(g: Setting, trace: seq<Action>, a: Action, j: nat)
    requires IsOn(a, j) && g.config.structuredLogs
    ensures Texts(g.ActionDrafts(trace, a)) + g.Held(trace + [a], j) == g.Held(trace, j) + ActionText(g.config, a)
  {
    var s, step := g.StateOf(trace, j), StepOf(g, trace, a);
    StepsNext(g, trace, a, j);
    RunOne(g.config, g.invokeOf(j), StepsOn(trace, j, g.ids), step);
    FunctionLogsConserved(g.config, g.invokeOf(j), StepsOn(trace, j, g.ids));
    StepPasses(g.config, s, step);
    assert g.ActionDrafts(trace, a) == DraftsOf(g.config, s, step);
    assert ActionText(g.config, a) == TextIn(g.config, step);
  }

  // ---------------------------------------------------------------------------
  // The books of the function logs; none is ever dropped by an invocation.

  function BooksOf(g: Setting, trace: seq<Action>): Books<RawLog> {
    Books(Texts(g.Output(trace)), TraceTexts(g.config, trace), (j: nat) => g.Held(trace, j), (j: nat) => false)
  }

  lemma ActionMoves(g: Setting, trace: seq<Action>, a: Action, j: nat)
    requires IsOn(a, j) && g.config.structuredLogs
    ensures Moves(BooksOf(g, trace), BooksOf(g, trace + [a]), j)
  {
    forall i: nat | i != j ensures g.Held(trace + [a], i) == g.Held(trace, i) {
      HeldElsewhere(g, trace, a, i);
    }
    OutputNext(g, trace, a);
    ProjectionsAppend(g.Output(trace), g.ActionDrafts(trace, a));
    HeldOn(g, trace, a, j);
  }

  lemma ActionBypasses(g: Setting, trace: seq<Action>, e: Event, how: Treatment)
    requires how.Degraded? && g.config.structuredLogs
    ensures Bypasses(BooksOf(g, trace), BooksOf(g, trace + [Handled(e, how)]))
  {
    var a := Handled(e, how);
    forall i: nat ensures g.Held(trace + [a], i) == g.Held(trace, i) {
      HeldElsewhere(g, trace, a, i);
    }
    OutputNext(g, trace, a);
    ProjectionsAppend(g.Output(trace), g.ActionDrafts(trace, a));
    OneDegraded(g.config, e, []);
  }

  lemma ActionFollows(g: Setting, trace: seq<Action>, a: Action)
    requires g.config.structuredLogs
    ensures Follows(BooksOf(g, trace), BooksOf(g, trace + [a]), a)
  {
    match a
    case Handled(e, OnInvocation(j)) => ActionMoves(g, trace, a, j);
    case Handled(e, Degraded(_, _)) => ActionBypasses(g, trace, e, a.how);
    case HandledSpans(j, _) =>
      ActionMoves(g, trace, a, j);
      OutputNext(g, trace, a);
  }

  /** The ledger of a setting. */
  ghost predicate Keeps(g: Setting, ledger: Ledger<RawLog>) {
    forall trace :: KeepsAt(g, ledger, trace)
  }

  ghost predicate KeepsAt(g: Setting, ledger: Ledger<RawLog>, trace: seq<Action>) {
    ledger(trace) == BooksOf(g, trace)
  }

  lemma LedgerFollows(g: Setting, ledger: Ledger<RawLog>, trace: seq<Action>, a: Action)
    requires g.config.structuredLogs
    requires ledger(trace) == BooksOf(g, trace) && ledger(trace + [a]) == BooksOf(g, trace + [a])
    ensures FollowsAt(ledger, trace, a)
  {
    ActionFollows(g, trace, a);
  }

  lemma LedgerIsLawful(g: Setting, ledger: Ledger<RawLog>)
    requires g.config.structuredLogs && Keeps(g, ledger)
    ensures Lawful(ledger) && Empty(ledger([]))
  {
    forall trace, a ensures FollowsAt(ledger, trace, a) {
      assert KeepsAt(g, ledger, trace) && KeepsAt(g, ledger, trace + [a]);
      LedgerFollows(g, ledger, trace, a);
    }
    assert KeepsAt(g, ledger, []);
    forall j: nat ensures g.Held([], j) == [] {}
  }

  lemma RunBalances(g: Setting, ledger: Ledger<RawLog>, inputs: seq<Input>)
    requires g.config.structuredLogs && Keeps(g, ledger)
    ensures var s := EventMerge.Run(inputs);
            && Balanced(ledger(s.trace), s.openings, s.invocation.Some?)
            && (s.invocation.Some? ==> s.invocation.value.ordinal + 1 == s.openings)
  {
    LedgerIsLawful(g, ledger);
    RunAccounts(ledger, inputs);
  }

  // ---------------------------------------------------------------------------
  // From arrival to output.

  lemma {:induction false} TraceTextsOfEvents(config: Config, trace: seq<Action>)
    ensures TraceTexts(config, trace) == EventTexts(config, Attribution.EventsIn(EventTrace(trace)))
  {
    if trace != [] {
      var front, a := trace[..|trace| - 1], Last(trace);
      TraceTextsOfEvents(config, front);
      var before, es := Attribution.EventsIn(EventTrace(front)), Attribution.EventsIn(EventTrace(trace));
      if a.Handled? {
        assert es == before + [a.event];
        EventTextsNext(config, before, a.event);
      } else {
        assert es == before;
      }
    }
  }

  lemma EventTextsNext(config: Config, es: seq<Event>, e: Event)
    ensures EventTexts(config, es + [e]) == EventTexts(config, es) + TextIn(config, OnEvent(e, []))
  {
    assert EventSteps(es + [e])[..|es|] == EventSteps(es);
  }

  lemma {:induction false} EventTextsAppend(config: Config, a: seq<Event>, b: seq<Event>)
    ensures EventTexts(config, a + b) == EventTexts(config, a) + EventTexts(config, b)
  {
    if b == [] {
      assert a + b == a;
    } else {
      var front := b[..|b| - 1];
      EventTextsAppend(config, a, front);
      EventTextsNext(config, a + front, Last(b));
      EventTextsNext(config, front, Last(b));
      assert a + b == a + front + [Last(b)] && b == front + [Last(b)];
    }
  }

  /** In OTel mode, function logs reached an invocation after its report, and neither the end of the runtime nor an
      early invocation span came to release them. */
  ghost predicate StrandsLogs(config: Config, steps: seq<P.Step>) {
    && config.tracingMode.OtelInstrumentation?
    && TextsAfterReport(config, steps) != []
    && Never(steps, IsDone) && !Has(SpansIn(steps), CxEarlyInvocation)
  }

  lemma StrandedExactly(config: Config, invoke: InvokeEvent, steps: seq<P.Step>)
    requires config.structuredLogs
    ensures P.Run(config, invoke, steps).state.logs != [] <==> StrandsLogs(config, steps)
  {
    HeldExactly(config, invoke, steps);
    DelayedExactlyWhen(config, invoke, steps);
  }

  /** The function logs that wait with the open invocation. */
  function Waiting(g: Setting, s: State): seq<RawLog> {
    if s.invocation.Some? then g.Held(s.trace, s.invocation.value.ordinal) else []
  }

  /** The regular function logs that arrived are what went out, then what waits with the open invocation, in the
      half-processed buffer and in the queue: each exactly once and in order. */
  ghost predicate AllThere(g: Setting, s: State, arrived: seq<Event>) {
    Texts(g.Output(s.trace)) + Waiting(g, s)
    + EventTexts(g.config, s.halfProcessedEventBuffer) + EventTexts(g.config, s.telemetryEventQueue)
    == EventTexts(g.config, arrived)
  }

  ghost predicate Stranded(g: Setting, s: State, j: nat) {
    StrandsLogs(g.config, StepsOn(s.trace, j, g.ids))
  }

  /** No closed invocation was given function logs after its report while logs were still delayed. */
  ghost predicate NoneStranded(g: Setting, s: State) {
    forall j: nat :: j < s.openings && !IsOpen(s, j) ==> !Stranded(g, s, j)
  }

  lemma AllThereUnlessStranded(g: Setting, inputs: seq<Input>)
    requires g.config.structuredLogs
    ensures AllThere(g, EventMerge.Run(inputs), EventsOf(inputs)) <==> NoneStranded(g, EventMerge.Run(inputs))
  {
    var s := EventMerge.Run(inputs);
    ArrivalTexts(g.config, inputs);
    var ledger: Ledger<RawLog> := trace => BooksOf(g, trace);
    assert Keeps(g, ledger) by {
      forall trace ensures KeepsAt(g, ledger, trace) {}
    }
    RunBalances(g, ledger, inputs);
    assert KeepsAt(g, ledger, s.trace);
    LetGoUnlessStranded(g, s);
    BooksTell(BooksOf(g, s.trace), s);
    assert HeldByOpen(BooksOf(g, s.trace), s) == Waiting(g, s);
    SameSuffix(Texts(g.Output(s.trace)) + Waiting(g, s), TraceTexts(g.config, s.trace),
               EventTexts(g.config, s.halfProcessedEventBuffer), EventTexts(g.config, s.telemetryEventQueue));
  }

  lemma SameSuffix<T>(a: seq<T>, b: seq<T>, c: seq<T>, d: seq<T>)
    ensures a + c + d == b + c + d <==> a == b
  {
    if a + c + d == b + c + d {
      assert |a| == |b|;
      assert a == (a + c + d)[..|a|] && b == (b + c + d)[..|b|];
    }
  }

  ghost predicate AllArrived(config: Config, s: State, arrived: seq<Event>) {
    TraceTexts(config, s.trace)
    + EventTexts(config, s.halfProcessedEventBuffer)
    + EventTexts(config, s.telemetryEventQueue)
    == EventTexts(config, arrived)
  }

  lemma ArrivalTexts(config: Config, inputs: seq<Input>)
    ensures AllArrived(config, EventMerge.Run(inputs), EventsOf(inputs))
  {
    var s := EventMerge.Run(inputs);
    var done := Attribution.EventsIn(EventTrace(s.trace));
    Attribution.EventsConserved(inputs);
    TraceTextsOfEvents(config, s.trace);
    EventTextsAppend(config, done, s.halfProcessedEventBuffer);
    EventTextsAppend(config, done + s.halfProcessedEventBuffer, s.telemetryEventQueue);
  }

  lemma LetGoUnlessStranded(g: Setting, s: State)
    requires g.config.structuredLogs
    ensures AllLetGo(BooksOf(g, s.trace), s) <==> NoneStranded(g, s)
  {
    forall j: nat ensures BooksOf(g, s.trace).held(j) != [] <==> Stranded(g, s, j) {
      StrandedExactly(g.config, g.invokeOf(j), StepsOn(s.trace, j, g.ids));
    }
  }

  // ---------------------------------------------------------------------------
  // Which logs are lost, in terms of what arrived.

  predicate IsText(config: Config, e: Event) {
    e.record.FunctionLog? && config.epsagonTrace(e.record.text).None?
  }

  function AfterReport(config: Config, es: seq<Event>): seq<RawLog> {
    if es == [] || IsReportEvent(Last(es)) then []
    else AfterReport(config, es[..|es| - 1]) + TextIn(config, OnEvent(Last(es), []))
  }

  lemma {:induction false} AfterReportOfSteps(config: Config, steps: seq<P.Step>)
    ensures TextsAfterReport(config, steps) == AfterReport(config, EventsAmong(steps))
  {
    if steps != [] {
      var front, step := steps[..|steps| - 1], Last(steps);
      AfterReportOfSteps(config, front);
      if step.OnEvent? {
        assert (EventsAmong(front) + [step.event])[..|EventsAmong(front)|] == EventsAmong(front);
      } else {
        assert EventsAmong(steps) == EventsAmong(front);
      }
    }
  }

  /** Event i is a regular function log, and no report follows. */
  ghost predicate TextLeft(config: Config, es: seq<Event>, i: nat) {
    i < |es| && IsText(config, es[i]) && NoneOf(es[i..], IsReportEvent)
  }

  lemma {:induction false} AfterReportExactly(config: Config, es: seq<Event>)
    ensures AfterReport(config, es) != [] <==> exists i: nat :: TextLeft(config, es, i)
  {
    if es != [] {
      var front, e := es[..|es| - 1], Last(es);
      AfterReportExactly(config, front);
      forall i: nat | i < |front| ensures TextLeft(config, es, i) <==> TextLeft(config, front, i) && !IsReportEvent(e) {
        assert es[i..] == front[i..] + [e];
        NoneOfNext(front[i..], e, IsReportEvent);
      }
      assert es[|front|..] == [e];
      if IsText(config, e) {
        assert TextLeft(config, es, |front|);
      }
      if i: nat :| TextLeft(config, front, i) {
        assert TextLeft(config, es, i) <==> !IsReportEvent(e);
      }
    }
  }

  /** Normal processing starts when p arrives and is replayed from k; among the replayed events, function log i
      comes after a report and no report comes after it; and none of them is a runtime-done event. */
  ghost predicate LostAt(config: Config, events: seq<Event>, r: string, k: nat, p: nat, i: nat) {
    && Attribution.ReplayAt(events, r, p) && Attribution.LastInit(events, p, k)
    && k <= i < p && IsText(config, events[i])
    && Attribution.ReportIn(events, k, i) && !Attribution.ReportIn(events, i, p)
    && NoneOf(events[k..p], IsDoneEvent)
  }

  /** In OTel mode, there is such a log, and no early invocation span is among the spans that arrive before the second
      invoke event and before normal processing starts. */
  ghost predicate LosesLogs(config: Config, inputs: seq<Input>) {
    && config.tracingMode.OtelInstrumentation? && InvokesOf(inputs) != []
    && (exists k: nat, p: nat, i: nat :: LostAt(config, EventsOf(inputs), InvokesOf(inputs)[0].requestId, k, p, i))
    && !Has(AllSpans(FirstArrivals(inputs)), CxEarlyInvocation)
  }

  /** What an invocation that was given these events and spans holds back. */
  ghost predicate LeavesLogs(config: Config, es: seq<Event>, spans: seq<ResourceSpans>) {
    && config.tracingMode.OtelInstrumentation?
    && AfterReport(config, es) != [] && NoneOf(es, IsDoneEvent)
    && !Has(AllSpans(spans), CxEarlyInvocation)
  }

  lemma StrandedByEvents(g: Setting, s: State, j: nat)
    ensures Stranded(g, s, j) <==> LeavesLogs(g.config, EventsOn(EventTrace(s.trace), j), SpansFor(s.trace, j))
  {
    var steps := StepsOn(s.trace, j, g.ids);
    StepsAreEvents(s.trace, j, g.ids);
    AfterReportOfSteps(g.config, steps);
    NeverAmong(steps);
    SpansForSteps(s.trace, j, g.ids);
  }

  /** An invocation that ends in a report strands nothing. */
  lemma ReportStrandsNothing(g: Setting, s: State, events: seq<Event>, context: FunctionContext, k: nat, p: nat, j: nat)
    requires AfterReplay(s, events, context, k, p) && j < s.openings && !IsOpen(s, j)
    requires !(j == 0 && Attribution.ReportIn(events, k, p))
    ensures !Stranded(g, s, j)
  {
    var lo, hi := ClosedEvents(s, events, context, k, p, j);
    StrandedByEvents(g, s, j);
    assert Last(events[lo..hi]) == events[hi - 1];
  }

  /** Only a report among the replayed events can strand logs, those of the first invocation. */
  lemma FirstStrandsExactly(g: Setting, inputs: seq<Input>, k: nat, p: nat)
    requires Replayed(inputs, k, p) && Attribution.ReportIn(EventsOf(inputs), k, p)
    ensures EventMerge.Run(inputs).openings > 0 && !IsOpen(EventMerge.Run(inputs), 0)
    ensures Stranded(g, EventMerge.Run(inputs), 0) <==> LosesLogs(g.config, inputs)
  {
    var s, events, r := EventMerge.Run(inputs), EventsOf(inputs), InvokesOf(inputs)[0].requestId;
    RunAfterReplay(inputs, k, p);
    ClosedAfterReport(s, events, InvokesOf(inputs)[0].context, k, p);
    var lo, hi := ClosedEvents(s, events, InvokesOf(inputs)[0].context, k, p, 0);
    StrandedByEvents(g, s, 0);
    FirstSpansGiven(inputs, k, p);
    ReplayedLoss(g.config, events, r, k, p);
    forall k': nat, p': nat, i: nat | LostAt(g.config, events, r, k', p', i) ensures k' == k && p' == p {
      Attribution.OnlyOneReplay(events, r, p, p', k, k');
    }
  }

  /** What the replayed events and the start event leave behind. */
  lemma ReplayedLoss(config: Config, events: seq<Event>, r: string, k: nat, p: nat)
    requires Attribution.ReplayAt(events, r, p) && Attribution.LastInit(events, p, k)
    requires Attribution.ReportIn(events, k, p)
    ensures AfterReport(config, events[k..p + 1]) != [] && NoneOf(events[k..p + 1], IsDoneEvent)
       <==> exists i: nat :: LostAt(config, events, r, k, p, i)
  {
    var es := events[k..p + 1];
    assert es == events[k..p] + [events[p]];
    AfterReportExactly(config, es);
    NoneOfNext(events[k..p], events[p], IsDoneEvent);
    forall i: nat | i < |es|
      ensures TextLeft(config, es, i) && NoneOf(es, IsDoneEvent) <==> LostAt(config, events, r, k, p, k + i)
    {
      LeftMeansLost(config, events, r, k, p, k + i);
    }
    if i: nat :| LostAt(config, events, r, k, p, i) {
      assert TextLeft(config, es, i - k);
    }
    if i: nat :| TextLeft(config, es, i) {
      assert NoneOf(es, IsDoneEvent) ==> LostAt(config, events, r, k, p, k + i);
    }
  }

  lemma LeftMeansLost(config: Config, events: seq<Event>, r: string, k: nat, p: nat, i: nat)
    requires Attribution.ReplayAt(events, r, p) && Attribution.LastInit(events, p, k)
    requires Attribution.ReportIn(events, k, p)
    requires k <= i <= p
    ensures TextLeft(config, events[k..p + 1], i - k) && NoneOf(events[k..p], IsDoneEvent)
       <==> LostAt(config, events, r, k, p, i)
  {
    var es := events[k..p + 1];
    assert es[i - k..] == events[i..p + 1] == events[i..p] + [events[p]];
    NoneOfNext(events[i..p], events[p], IsReportEvent);
    NoReportIn(events, i, p);
    if !Attribution.ReportIn(events, i, p) {
      var q :| k <= q < p && events[q].record.PlatformReport?;
      assert q < i;
    }
  }

  lemma NoReportIn(events: seq<Event>, i: nat, p: nat)
    requires i <= p <= |events|
    ensures NoneOf(events[i..p], IsReportEvent) <==> !Attribution.ReportIn(events, i, p)
  {
    if q :| i <= q < p && events[q].record.PlatformReport? {
      ReportAmong(events[i..p], q - i);
    }
  }

  lemma StrandedExactlyWhen(g: Setting, inputs: seq<Input>)
    ensures NoneStranded(g, EventMerge.Run(inputs)) <==> !LosesLogs(g.config, inputs)
  {
    var s, events := EventMerge.Run(inputs), EventsOf(inputs);
    if !s.initHandled {
      forall j: nat | j < s.openings ensures IsOpen(s, j) {
        BeforeReplay(inputs, j);
      }
      if LosesLogs(g.config, inputs) {
        var k: nat, p: nat, i: nat :| LostAt(g.config, events, InvokesOf(inputs)[0].requestId, k, p, i);
        RunAfterReplay(inputs, k, p);
      }
    } else {
      var k, p := ReplayOf(inputs);
      RunAfterReplay(inputs, k, p);
      forall j: nat | j < s.openings && !IsOpen(s, j) && !(j == 0 && Attribution.ReportIn(events, k, p))
        ensures !Stranded(g, s, j)
      {
        ReportStrandsNothing(g, s, events, InvokesOf(inputs)[0].context, k, p, j);
      }
      if Attribution.ReportIn(events, k, p) {
        FirstStrandsExactly(g, inputs, k, p);
      } else {
        NothingLostWithoutReport(g.config, inputs, k, p);
      }
    }
  }

  lemma NothingLostWithoutReport(config: Config, inputs: seq<Input>, k: nat, p: nat)
    requires Replayed(inputs, k, p) && !Attribution.ReportIn(EventsOf(inputs), k, p)
    ensures !LosesLogs(config, inputs)
  {
    forall k': nat, p': nat, i: nat | LostAt(config, EventsOf(inputs), InvokesOf(inputs)[0].requestId, k', p', i)
      ensures false
    {
      Attribution.OnlyOneReplay(EventsOf(inputs), InvokesOf(inputs)[0].requestId, p, p', k, k');
    }
  }

  /** For whatever arrives at the service and however it is interleaved and batched, all its function logs are
      there, unless normal processing starts with a report and a function log after it among the replayed events, and
      nothing releases the log: then and only then is something missing. */
  lemma FunctionLogsEndToEnd(g: Setting, inputs: seq<Input>)
    requires g.config.structuredLogs
    ensures AllThere(g, EventMerge.Run(inputs), EventsOf(inputs)) <==> !LosesLogs(g.config, inputs)
  {
    AllThereUnlessStranded(g, inputs);
    StrandedExactlyWhen(g, inputs);
  }

  // ---------------------------------------------------------------------------
  // Such an input.

  function ReplayInputs(e: InvokeEvent): seq<Input> {
    [Invoked(e), TelemetryReceived(ReplayEvents(e))]
  }

  function ReplayEvents(e: InvokeEvent): seq<Event> {
    [Event(1, PlatformInitStart), Event(2, PlatformReport("old")), Event(3, FunctionLog("log")),
     Event(4, PlatformStart(e.requestId))]
  }

  lemma ReplayArrives(e: InvokeEvent)
    ensures InvokesOf(ReplayInputs(e)) == [e] && EventsOf(ReplayInputs(e)) == ReplayEvents(e)
    ensures FirstArrivals(ReplayInputs(e)) == []
  {
    var inputs := ReplayInputs(e);
    assert inputs[..1] == [Invoked(e)] && [Invoked(e)][..0] == [];
    assert Last([Invoked(e)]) == Invoked(e) && Last(inputs) == TelemetryReceived(ReplayEvents(e));
    assert InvokesOf([Invoked(e)]) == [] + [e] == [e] && EventsOf([Invoked(e)]) == [] + [] == [];
    assert FirstArrivals([Invoked(e)]) == [] + [] == [];
  }

  lemma ReplayLoses(config: Config, e: InvokeEvent)
    requires config.epsagonTrace("log").None?
    ensures LostAt(config, ReplayEvents(e), e.requestId, 0, 3, 2)
  {
    var events := ReplayEvents(e);
    assert Attribution.IsInit(events[0]) && events[1].record.PlatformReport?;
    assert Attribution.InitBefore(events, 3);
    assert Attribution.ReportIn(events, 0, 2);
  }

  /** In OTel mode an init start, an old report, a function log and the start of the invocation, in this order, lose
      the log, although nothing fails. */
  lemma ReplayedReportStrands(g: Setting, e: InvokeEvent)
    requires g.config.structuredLogs && g.config.tracingMode.OtelInstrumentation? && g.config.epsagonTrace("log").None?
    ensures !AllThere(g, EventMerge.Run(ReplayInputs(e)), EventsOf(ReplayInputs(e)))
  {
    ReplayArrives(e);
    ReplayLoses(g.config, e);
    assert !Has(AllSpans([]), CxEarlyInvocation);
    assert LostAt(g.config, EventsOf(ReplayInputs(e)), InvokesOf(ReplayInputs(e))[0].requestId, 0, 3, 2);
    FunctionLogsEndToEnd(g, ReplayInputs(e));
  }
}
