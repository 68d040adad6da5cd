/** How the service decides when to send: the `should_send` flag, the `should_send_by` deadline with its
    detached timers, and the signal channel that the invoke handler waits on, as atomic steps of a
    protocol (src/telemetry/telemetry_service.rs). A step is a region under the state lock, a receive
    from the channel, or time passing. */
module SendCoordination {
  import opened Sequences

  datatype Strategy = LowOverhead | ReportAfterInvocation | ReportDuringAndAfterInvocation {
    predicate SendAfterInvocation() {
      !LowOverhead?
    }

    predicate SendAfterDelay() {
      !ReportAfterInvocation?
    }
  }

  /** An opaque log record, span or trace in the output buffers. */
  datatype Output = Output(id: nat)

  datatype Signal = ShouldSend | InvocationDone

  /** Where the handler of the current invoke event is. */
  datatype Handler = Idle | Starting | Checking | Receiving

  /** What processing queued telemetry came to. */
  datatype Outcome = NotDone | Done | Failed

  /** `received` (the number of signals taken out of the channel), `requests` (the deadlines asked for since the
      last time the deadline was cleared) and `appended` (all outputs ever appended) are bookkeeping. */
  datatype State = State(
    now: nat,
    shouldSend: bool,
    shouldSendBy: Option<nat>,
    channel: seq<Signal>,
    received: nat,
    timers: multiset<nat>,
    handler: Handler,
    buffer: seq<Output>,
    batches: seq<seq<Output>>,
    requests: set<nat>,
    appended: seq<Output>)

  const INITIAL := State(0, false, None, [], 0, multiset{}, Idle, [], [], {}, [])

  datatype Step =
    | Tick(elapsed: nat)
    | BeginInvoke                                        // drains the channel in the low-overhead strategy
    | PushInvoke(outputs: seq<Output>, outcome: Outcome) // queues the invoke event and processes telemetry
    | Check                                              // sends if it is time to
    | ReceiveSignal
    | Telemetry(sendBy: Option<nat>, outputs: seq<Output>, outcome: Outcome)
    | Spans(processed: bool, outputs: seq<Output>, overThreshold: bool, delay: nat)
    | Metrics(outputs: seq<Output>, delay: nat)
    | TimerFires(armedFor: nat)
    | Shutdown(outputs: seq<Output>)

  // ---------------------------------------------------------------------------
  // Regions under the lock.

  function SignalShouldSend(s: State): State {
    s.(shouldSend := true, channel := s.channel + [ShouldSend])
  }

  function SignalInvocationDone(s: State): State {
    s.(channel := s.channel + [InvocationDone])
  }

  function ClearDeadline(s: State): State {
    s.(shouldSendBy := None, requests := {})
  }

  function SignalShouldSendBy(s: State, time: nat): State {
    var asked := s.(requests := s.requests + {time});
    if s.shouldSendBy.None? || time <= s.shouldSendBy.value then
      if time <= s.now then SignalShouldSend(ClearDeadline(asked))
      else asked.(shouldSendBy := Some(time), timers := s.timers + multiset{time})
    else asked
  }

  predicate DeadlinePassed(s: State) {
    s.shouldSendBy.Some? && s.now >= s.shouldSendBy.value
  }

  function Append(s: State, outputs: seq<Output>): State {
    s.(buffer := s.buffer + outputs, appended := s.appended + outputs)
  }

  /** `handle_telemetry` */
  function HandleTelemetry(strategy: Strategy, s: State, outputs: seq<Output>, outcome: Outcome): State {
    var processed := Append(s, outputs);
    match outcome
    case NotDone => processed
    case Done =>
      var signalled := if strategy.SendAfterInvocation() then SignalShouldSend(processed) else processed;
      SignalInvocationDone(signalled)
    case Failed => SignalInvocationDone(processed)
  }

  /** `send_telemetry` */
  function SendTelemetry(s: State): State {
    ClearDeadline(s).(shouldSend := false, batches := s.batches + [s.buffer], buffer := [])
  }

  // ---------------------------------------------------------------------------
  // The protocol.

  /** The deadline that incoming telemetry asks for. */
  function Asked(strategy: Strategy, s: State, sendBy: Option<nat>): State {
    if strategy.SendAfterDelay() && sendBy.Some? then SignalShouldSendBy(s, sendBy.value) else s
  }

  predicate Enabled(strategy: Strategy, s: State, step: Step) {
    match step
    case BeginInvoke => s.handler == Idle
    case PushInvoke(_, _) => s.handler == Starting
    case Check => s.handler == Checking
    case ReceiveSignal => s.handler == Receiving && s.channel != []
    case TimerFires(d) => d in s.timers && s.now >= d
    case _ => true
  }

  function Apply(strategy: Strategy, s: State, step: Step): State
    requires Enabled(strategy, s, step)
  {
    match step
    case Tick(elapsed) => s.(now := s.now + elapsed)
    case BeginInvoke =>
      if strategy.LowOverhead? then s.(handler := Starting, channel := [], received := s.received + |s.channel|)
      else s.(handler := Starting)
    case PushInvoke(outputs, outcome) => HandleTelemetry(strategy, s.(handler := Checking), outputs, outcome)
    case Check =>
      var sent := if s.shouldSend || DeadlinePassed(s) then SendTelemetry(s) else s;
      sent.(handler := if strategy.LowOverhead? then Idle else Receiving)
    case ReceiveSignal =>
      s.(channel := s.channel[1..], received := s.received + 1,
         handler := if s.channel[0].ShouldSend? then Checking else Idle)
    case Telemetry(sendBy, outputs, outcome) =>
      HandleTelemetry(strategy, Asked(strategy, s, sendBy), outputs, outcome)
    case Spans(processed, outputs, overThreshold, delay) =>
      if !processed then s
      else if overThreshold then SignalShouldSend(Append(s, outputs))
      else if strategy.SendAfterDelay() then SignalShouldSendBy(Append(s, outputs), s.now + delay)
      else Append(s, outputs)
    case Metrics(outputs, delay) =>
      Append(if strategy.SendAfterDelay() then SignalShouldSendBy(s, s.now + delay) else s, outputs)
    case TimerFires(d) =>
      var fired := s.(timers := s.timers - multiset{d});
      if DeadlinePassed(s) then SignalShouldSend(ClearDeadline(fired)) else fired
    case Shutdown(outputs) => SendTelemetry(Append(s, outputs))
  }

  /** The state after an interleaving; a step that is not enabled does nothing. */
  function Run(strategy: Strategy, steps: seq<Step>): State {
    if steps == [] then INITIAL
    else
      var s := Run(strategy, steps[..|steps| - 1]);
      if Enabled(strategy, s, Last(steps)) then Apply(strategy, s, Last(steps)) else s
  }

  // ---------------------------------------------------------------------------
  // The invariant.

  ghost predicate OutputsConserved(s: State) {
    Flatten(s.batches) + s.buffer == s.appended
  }

  /** A pending send is not forgotten: the handler cannot be waiting without a signal on its way. */
  ghost predicate WakeupPending(s: State) {
    s.shouldSend && s.handler == Receiving ==> ShouldSend in s.channel
  }

  /** The deadline is the earliest one requested, and a timer is armed for exactly that time. */
  ghost predicate DeadlineGuarded(s: State) {
    match s.shouldSendBy
    case None => s.requests == {}
    case Some(d) => d in s.timers && d in s.requests && forall r :: r in s.requests ==> d <= r
  }

  ghost predicate Invariant(s: State) {
    OutputsConserved(s) && WakeupPending(s) && DeadlineGuarded(s)
  }

  lemma SignalKeeps(s: State)
    requires Invariant(s)
    ensures Invariant(SignalShouldSend(s))
  {
    assert Last(SignalShouldSend(s).channel) == ShouldSend;
  }

  lemma SignalByKeeps(s: State, time: nat)
    requires Invariant(s)
    ensures Invariant(SignalShouldSendBy(s, time))
  {
    if (s.shouldSendBy.None? || time <= s.shouldSendBy.value) && time <= s.now {
      SignalKeeps(ClearDeadline(s));
    }
  }

  lemma AppendKeeps(s: State, outputs: seq<Output>)
    requires Invariant(s)
    ensures Invariant(Append(s, outputs))
  {
    Associative(Flatten(s.batches), s.buffer, outputs);
  }

  /** Sending takes everything. */
  lemma SendKeeps(s: State)
    requires Invariant(s)
    ensures Invariant(SendTelemetry(s))
    ensures Flatten(SendTelemetry(s).batches) == s.appended
  {
    FlattenAppend(s.batches, [s.buffer]);
    FlattenOne(s.buffer);
    assert s.appended + [] == s.appended;
  }

  lemma HandleKeeps(strategy: Strategy, s: State, outputs: seq<Output>, outcome: Outcome)
    requires Invariant(s)
    ensures Invariant(HandleTelemetry(strategy, s, outputs, outcome))
  {
    AppendKeeps(s, outputs);
    SignalKeeps(Append(s, outputs));
  }

  lemma SpansKeep(strategy: Strategy, s: State, outputs: seq<Output>, overThreshold: bool, delay: nat)
    requires Invariant(s)
    ensures Invariant(Apply(strategy, s, Spans(true, outputs, overThreshold, delay)))
  {
    var appended := Append(s, outputs);
    AppendKeeps(s, outputs);
    if overThreshold {
      SignalKeeps(appended);
    } else if strategy.SendAfterDelay() {
      SignalByKeeps(appended, s.now + delay);
      assert Apply(strategy, s, Spans(true, outputs, overThreshold, delay))
          == SignalShouldSendBy(appended, s.now + delay);
    }
  }

  lemma MetricsKeep(strategy: Strategy, s: State, outputs: seq<Output>, delay: nat)
    requires Invariant(s)
    ensures Invariant(Apply(strategy, s, Metrics(outputs, delay)))
  {
    var asked := s;
    if strategy.SendAfterDelay() {
      SignalByKeeps(s, s.now + delay);
      asked := SignalShouldSendBy(s, s.now + delay);
    }
    AppendKeeps(asked, outputs);
    assert Apply(strategy, s, Metrics(outputs, delay)) == Append(asked, outputs);
  }

  lemma TimerKeeps(strategy: Strategy, s: State, d: nat)
    requires Invariant(s) && d in s.timers && s.now >= d
    ensures Invariant(Apply(strategy, s, TimerFires(d)))
  {
    SignalKeeps(ClearDeadline(s.(timers := s.timers)));
  }

  lemma StepKeeps(strategy: Strategy, s: State, step: Step)
    requires Invariant(s) && Enabled(strategy, s, step)
    ensures Invariant(Apply(strategy, s, step))
  {
    match step {
      case PushInvoke(outputs, outcome) => HandleKeeps(strategy, s.(handler := Checking), outputs, outcome);
      case Check => SendKeeps(s);
      case Telemetry(sendBy, outputs, outcome) =>
        if strategy.SendAfterDelay() && sendBy.Some? {
          SignalByKeeps(s, sendBy.value);
        }
        HandleKeeps(strategy, Asked(strategy, s, sendBy), outputs, outcome);
      case Spans(processed, outputs, overThreshold, delay) =>
        if processed {
          SpansKeep(strategy, s, outputs, overThreshold, delay);
        }
      case Metrics(outputs, delay) => MetricsKeep(strategy, s, outputs, delay);
      case TimerFires(d) => TimerKeeps(strategy, s, d);
      case Shutdown(outputs) =>
        AppendKeeps(s, outputs);
        SendKeeps(Append(s, outputs));
      case _ =>
    }
  }

  lemma {:induction false} RunInvariant(strategy: Strategy, steps: seq<Step>)
    ensures Invariant(Run(strategy, steps))
  {
    if steps != [] {
      var s := Run(strategy, steps[..|steps| - 1]);
      RunInvariant(strategy, steps[..|steps| - 1]);
      if Enabled(strategy, s, Last(steps)) {
        StepKeeps(strategy, s, Last(steps));
      }
    }
  }

  /** One more step, if it is enabled. */
  function Next(strategy: Strategy, s: State, step: Step): State {
    if Enabled(strategy, s, step) then Apply(strategy, s, step) else s
  }

  lemma RunNext(strategy: Strategy, pre: seq<Step>, post: seq<Step>)
    requires post != []
    ensures Run(strategy, pre + post) == Next(strategy, Run(strategy, pre + post[..|post| - 1]), Last(post))
  {
    assert (pre + post)[..|pre + post| - 1] == pre + post[..|post| - 1];
  }

  lemma RunOne(strategy: Strategy, steps: seq<Step>, step: Step)
    ensures Run(strategy, steps + [step]) == Next(strategy, Run(strategy, steps), step)
  {
    assert (steps + [step])[..|steps|] == steps;
  }

  // ---------------------------------------------------------------------------
  // What follows for every interleaving.

  /** The outputs that a step produces. */
  function OutputsOf(step: Step): seq<Output> {
    match step
    case PushInvoke(outputs, _) => outputs
    case Telemetry(_, outputs, _) => outputs
    case Spans(processed, outputs, _, _) => if processed then outputs else []
    case Metrics(outputs, _) => outputs
    case Shutdown(outputs) => outputs
    case _ => []
  }

  /** All outputs of the steps that were taken. */
  function Produced(strategy: Strategy, steps: seq<Step>): seq<Output> {
    if steps == [] then []
    else
      var front, step := steps[..|steps| - 1], Last(steps);
      Produced(strategy, front) + if Enabled(strategy, Run(strategy, front), step) then OutputsOf(step) else []
  }

  lemma AskKeeps(s: State, time: nat)
    ensures SignalShouldSendBy(s, time).handler == s.handler && SignalShouldSendBy(s, time).appended == s.appended
  {}

  lemma RegionsKeep(strategy: Strategy, s: State, sendBy: Option<nat>, outputs: seq<Output>, outcome: Outcome)
    ensures HandleTelemetry(strategy, Asked(strategy, s, sendBy), outputs, outcome).handler == s.handler
    ensures HandleTelemetry(strategy, Asked(strategy, s, sendBy), outputs, outcome).appended == s.appended + outputs
  {
    if sendBy.Some? {
      AskKeeps(s, sendBy.value);
    }
  }

  lemma StepAppends(strategy: Strategy, s: State, step: Step)
    requires Enabled(strategy, s, step)
    ensures Apply(strategy, s, step).appended == s.appended + OutputsOf(step)
  {
    assert s.appended + [] == s.appended;
    match step {
      case Telemetry(sendBy, outputs, outcome) => RegionsKeep(strategy, s, sendBy, outputs, outcome);
      case Spans(_, outputs, _, delay) => AskKeeps(Append(s, outputs), s.now + delay);
      case Metrics(_, delay) => AskKeeps(s, s.now + delay);
      case _ =>
    }
  }

  lemma {:induction false} ProducedAreAppended(strategy: Strategy, steps: seq<Step>)
    ensures Run(strategy, steps).appended == Produced(strategy, steps)
  {
    if steps != [] {
      var front := steps[..|steps| - 1];
      ProducedAreAppended(strategy, front);
      if Enabled(strategy, Run(strategy, front), Last(steps)) {
        StepAppends(strategy, Run(strategy, front), Last(steps));
      }
    }
  }

  /** Batches and buffer together are all outputs of all the steps, in order. */
  lemma NothingLostOrReordered(strategy: Strategy, steps: seq<Step>)
    ensures var s := Run(strategy, steps);
            Flatten(s.batches) + s.buffer == Produced(strategy, steps)
  {
    RunInvariant(strategy, steps);
    ProducedAreAppended(strategy, steps);
  }

  /** Why something would be sent: at the end of an invocation except in the low-overhead strategy, some time after
      something arrives except in the strategy that only reports after an invocation, when there are too many spans, and
      at shutdown. */
  predicate IsReason(strategy: Strategy, step: Step) {
    match step
    case PushInvoke(_, outcome) => outcome == Done && strategy != LowOverhead
    case Telemetry(sendBy, _, outcome) =>
      || (sendBy.Some? && strategy != ReportAfterInvocation)
      || (outcome == Done && strategy != LowOverhead)
    case Spans(processed, _, overThreshold, _) => processed && (overThreshold || strategy != ReportAfterInvocation)
    case Metrics(_, _) => strategy != ReportAfterInvocation
    case Shutdown(_) => true
    case _ => false
  }

  ghost predicate Untouched(s: State) {
    !s.shouldSend && s.shouldSendBy.None? && s.timers == multiset{} && s.batches == []
  }

  lemma StepLeaves(strategy: Strategy, s: State, step: Step)
    requires Untouched(s) && Enabled(strategy, s, step) && !IsReason(strategy, step)
    ensures Untouched(Apply(strategy, s, step))
  {}

  /** Without a reason nothing is sent, and no timer is started. */
  lemma {:induction false} NothingSentWithoutReason(strategy: Strategy, steps: seq<Step>)
    requires forall i :: 0 <= i < |steps| ==> !IsReason(strategy, steps[i])
    ensures Untouched(Run(strategy, steps))
  {
    if steps != [] {
      var s := Run(strategy, steps[..|steps| - 1]);
      NothingSentWithoutReason(strategy, steps[..|steps| - 1]);
      if Enabled(strategy, s, Last(steps)) {
        StepLeaves(strategy, s, Last(steps));
      }
    }
  }

  lemma StepWaits(strategy: Strategy, s: State, step: Step)
    requires Enabled(strategy, s, step)
    ensures Apply(strategy, s, step).handler == Receiving ==>
              s.handler == Receiving || (step == Check && strategy != LowOverhead)
  {
    match step {
      case Telemetry(sendBy, outputs, outcome) => RegionsKeep(strategy, s, sendBy, outputs, outcome);
      case Spans(_, outputs, _, delay) => AskKeeps(Append(s, outputs), s.now + delay);
      case Metrics(_, delay) => AskKeeps(s, s.now + delay);
      case _ =>
    }
  }

  /** In the low-overhead strategy the handler never waits; and an invocation begins with no signals left over. */
  lemma {:induction false} LowOverheadNeverWaits(steps: seq<Step>)
    ensures Run(LowOverhead, steps).handler != Receiving
    ensures Run(LowOverhead, steps).handler == Idle ==> Run(LowOverhead, steps + [BeginInvoke]).channel == []
  {
    RunOne(LowOverhead, steps, BeginInvoke);
    if steps != [] {
      var s := Run(LowOverhead, steps[..|steps| - 1]);
      LowOverheadNeverWaits(steps[..|steps| - 1]);
      if Enabled(LowOverhead, s, Last(steps)) {
        StepWaits(LowOverhead, s, Last(steps));
      }
    }
  }

  /** The handler's next step is possible, unless it waits at an empty channel, and takes it on. */
  ghost predicate GoesOn(strategy: Strategy, s: State, step: Step, t: State) {
    match step
    case BeginInvoke => s.handler == Idle ==> t.handler == Starting
    case PushInvoke(_, _) => s.handler == Starting ==> t.handler == Checking
    case Check => s.handler == Checking ==> t.handler == if strategy == LowOverhead then Idle else Receiving
    case ReceiveSignal =>
      s.handler == Receiving ==>
        if s.channel == [] then t == s
        else t.channel == s.channel[1..] && t.handler == if s.channel[0] == ShouldSend then Checking else Idle
    case TimerFires(d) => d in s.timers && d <= s.now ==> t.timers == s.timers - multiset{d}
    case _ => t.handler == s.handler
  }

  lemma RegionsGoOn(strategy: Strategy, s: State, step: Step)
    requires !step.BeginInvoke? && !step.Check? && !step.ReceiveSignal?
    ensures GoesOn(strategy, s, step, Next(strategy, s, step))
  {
    match step {
      case PushInvoke(outputs, outcome) => RegionsKeep(strategy, s.(handler := Checking), None, outputs, outcome);
      case Telemetry(sendBy, outputs, outcome) => RegionsKeep(strategy, s, sendBy, outputs, outcome);
      case Spans(_, outputs, _, delay) => AskKeeps(Append(s, outputs), s.now + delay);
      case Metrics(_, delay) => AskKeeps(s, s.now + delay);
      case _ =>
    }
  }

  lemma StepGoesOn(strategy: Strategy, s: State, step: Step)
    ensures GoesOn(strategy, s, step, Next(strategy, s, step))
  {
    if !step.BeginInvoke? && !step.Check? && !step.ReceiveSignal? {
      RegionsGoOn(strategy, s, step);
    }
  }

  /** In every run, nothing but an empty channel holds the handler up, and nothing holds up a timer that is due. */
  lemma NothingHeldUp(strategy: Strategy, steps: seq<Step>, step: Step)
    ensures GoesOn(strategy, Run(strategy, steps), step, Run(strategy, steps + [step]))
  {
    RunOne(strategy, steps, step);
    StepGoesOn(strategy, Run(strategy, steps), step);
  }

  /** A look at the buffer leaves the signals alone. */
  lemma CheckKeepsChannel(strategy: Strategy, s: State)
    ensures Next(strategy, s, Check).channel == s.channel
  {}

  lemma LookAgain(strategy: Strategy, steps: seq<Step>) returns (next: seq<Step>)
    requires strategy != LowOverhead && Run(strategy, steps).handler == Receiving
    requires Run(strategy, steps).channel != [] && Run(strategy, steps).channel[0] == ShouldSend
    ensures next == steps + [ReceiveSignal] + [Check]
    ensures Run(strategy, next).handler == Receiving && Run(strategy, next).channel == Run(strategy, steps).channel[1..]
  {
    next := steps + [ReceiveSignal] + [Check];
    NothingHeldUp(strategy, steps, ReceiveSignal);
    NothingHeldUp(strategy, steps + [ReceiveSignal], Check);
    RunOne(strategy, steps + [ReceiveSignal], Check);
    CheckKeepsChannel(strategy, Run(strategy, steps + [ReceiveSignal]));
  }

  /** What the handler does about n requests to send and the end of the invocation. */
  function Answers(n: nat): seq<Step> {
    if n == 0 then [ReceiveSignal] else [ReceiveSignal] + [Check] + Answers(n - 1)
  }

  /** The first end of an invocation in the channel is at n. */
  ghost predicate DoneAt(channel: seq<Signal>, n: nat) {
    n < |channel| && channel[n] == InvocationDone && forall i :: 0 <= i < n ==> channel[i] == ShouldSend
  }

  lemma AnswersAfter(steps: seq<Step>, n: nat)
    requires n > 0
    ensures steps + Answers(n) == steps + [ReceiveSignal] + [Check] + Answers(n - 1)
  {}

  /** Once the end of the invocation is signalled, the handler comes to it by its own steps, one look at the buffer for
      each signal before. */
  lemma {:induction false} HandlerFinishes(strategy: Strategy, steps: seq<Step>, n: nat)
    requires strategy != LowOverhead && Run(strategy, steps).handler == Receiving
    requires DoneAt(Run(strategy, steps).channel, n)
    ensures Run(strategy, steps + Answers(n)).handler == Idle
    ensures Run(strategy, steps + Answers(n)).channel == Run(strategy, steps).channel[n + 1..]
    decreases n
  {
    if n == 0 {
      NothingHeldUp(strategy, steps, ReceiveSignal);
    } else {
      var next := LookAgain(strategy, steps);
      HandlerFinishes(strategy, next, n - 1);
      AnswersAfter(steps, n);
    }
  }

  /** While the handler waits, a requested send always has its signal in the channel. */
  lemma NoWakeupLost(strategy: Strategy, steps: seq<Step>)
    ensures var s := Run(strategy, steps);
            s.shouldSend && s.handler == Receiving ==> ShouldSend in s.channel
  {
    RunInvariant(strategy, steps);
  }

  // ---------------------------------------------------------------------------
  // Deadlines.

  ghost predicate NoTimerDue(s: State) {
    forall t :: t in s.timers ==> s.now < t
  }

  /** A deadline is the earliest of those requested since the last one was cleared, and a timer is armed for exactly
      its time; without one, none is outstanding. So none has passed once all timers that are due have fired. */
  lemma NoDeadlineLost(strategy: Strategy, steps: seq<Step>)
    ensures var s := Run(strategy, steps);
            && (s.shouldSendBy.None? ==> s.requests == {})
            && (s.shouldSendBy.Some? ==> s.shouldSendBy.value in s.timers && s.shouldSendBy.value in s.requests)
            && (s.shouldSendBy.Some? ==> forall r :: r in s.requests ==> s.shouldSendBy.value <= r)
            && (NoTimerDue(s) ==> forall r :: r in s.requests ==> s.now < r)
  {
    RunInvariant(strategy, steps);
  }

  /** The deadline that a step asks for. */
  function Requested(strategy: Strategy, s: State, step: Step): Option<nat> {
    if strategy == ReportAfterInvocation then None
    else
      match step
      case Telemetry(sendBy, _, _) => sendBy
      case Spans(processed, _, overThreshold, delay) =>
        if processed && !overThreshold then Some(s.now + delay) else None
      case Metrics(_, delay) => Some(s.now + delay)
      case _ => None
  }

  /** Either the request is outstanding, or a send is due, or a send has happened since there were n batches. */
  predicate Followed(s: State, d: nat, n: nat) {
    d in s.requests || s.shouldSend || |s.batches| > n
  }

  /** Outputs and batches only grow; what is due stays due until it is sent, and what is requested stays requested
      until it is due or sent. */
  ghost predicate Progress(s: State, s': State) {
    && s.appended <= s'.appended && |s.batches| <= |s'.batches|
    && (s.shouldSend ==> s'.shouldSend || |s'.batches| > |s.batches|)
    && (forall r :: r in s.requests ==> r in s'.requests || s'.shouldSend || |s'.batches| > |s.batches|)
  }

  lemma ProgressTwice(a: State, b: State, c: State)
    requires Progress(a, b) && Progress(b, c)
    ensures Progress(a, c)
  {}

  lemma AskProgresses(s: State, time: nat)
    ensures Progress(s, SignalShouldSendBy(s, time))
    ensures time in SignalShouldSendBy(s, time).requests || SignalShouldSendBy(s, time).shouldSend
  {}

  lemma HandleProgresses(strategy: Strategy, s: State, outputs: seq<Output>, outcome: Outcome)
    ensures Progress(s, HandleTelemetry(strategy, s, outputs, outcome))
  {}

  lemma TelemetryProgresses(strategy: Strategy, s: State, sendBy: Option<nat>, outputs: seq<Output>, outcome: Outcome)
    ensures Progress(s, Apply(strategy, s, Telemetry(sendBy, outputs, outcome)))
    ensures strategy != ReportAfterInvocation && sendBy.Some? ==>
              Followed(Apply(strategy, s, Telemetry(sendBy, outputs, outcome)), sendBy.value, |s.batches|)
  {
    var asked := Asked(strategy, s, sendBy);
    if strategy.SendAfterDelay() && sendBy.Some? {
      AskProgresses(s, sendBy.value);
    }
    HandleProgresses(strategy, asked, outputs, outcome);
    ProgressTwice(s, asked, HandleTelemetry(strategy, asked, outputs, outcome));
  }

  lemma SpansProgress(strategy: Strategy, s: State, outputs: seq<Output>, overThreshold: bool, delay: nat)
    ensures Progress(s, Apply(strategy, s, Spans(true, outputs, overThreshold, delay)))
    ensures strategy != ReportAfterInvocation && !overThreshold ==>
              Followed(Apply(strategy, s, Spans(true, outputs, overThreshold, delay)), s.now + delay, |s.batches|)
  {
    var appended := Append(s, outputs);
    if !overThreshold && strategy.SendAfterDelay() {
      AskProgresses(appended, s.now + delay);
      assert Apply(strategy, s, Spans(true, outputs, overThreshold, delay))
          == SignalShouldSendBy(appended, s.now + delay);
      ProgressTwice(s, appended, SignalShouldSendBy(appended, s.now + delay));
    }
  }

  lemma MetricsProgress(strategy: Strategy, s: State, outputs: seq<Output>, delay: nat)
    ensures Progress(s, Apply(strategy, s, Metrics(outputs, delay)))
    ensures strategy != ReportAfterInvocation ==>
              Followed(Apply(strategy, s, Metrics(outputs, delay)), s.now + delay, |s.batches|)
  {
    var asked := if strategy.SendAfterDelay() then SignalShouldSendBy(s, s.now + delay) else s;
    AskProgresses(s, s.now + delay);
    ProgressTwice(s, asked, Append(asked, outputs));
  }

  lemma TimerProgresses(strategy: Strategy, s: State, d: nat)
    requires d in s.timers && s.now >= d
    ensures Progress(s, Apply(strategy, s, TimerFires(d)))
  {}

  lemma SendProgresses(s: State)
    ensures Progress(s, SendTelemetry(s))
  {}

  lemma StepProgresses(strategy: Strategy, s: State, step: Step)
    requires Enabled(strategy, s, step)
    ensures Progress(s, Apply(strategy, s, step))
  {
    match step {
      case PushInvoke(outputs, outcome) => HandleProgresses(strategy, s.(handler := Checking), outputs, outcome);
      case Telemetry(sendBy, outputs, outcome) => TelemetryProgresses(strategy, s, sendBy, outputs, outcome);
      case Spans(processed, outputs, overThreshold, delay) =>
        if processed {
          SpansProgress(strategy, s, outputs, overThreshold, delay);
        }
      case Metrics(outputs, delay) => MetricsProgress(strategy, s, outputs, delay);
      case TimerFires(d) => TimerProgresses(strategy, s, d);
      case Shutdown(outputs) =>
        SendProgresses(Append(s, outputs));
        ProgressTwice(s, Append(s, outputs), SendTelemetry(Append(s, outputs)));
      case Check => SendProgresses(s);
      case _ =>
    }
  }

  lemma StepIsFollowed(strategy: Strategy, s: State, step: Step)
    requires Enabled(strategy, s, step) && Requested(strategy, s, step).Some?
    ensures Followed(Apply(strategy, s, step), Requested(strategy, s, step).value, |s.batches|)
    ensures |s.batches| <= |Apply(strategy, s, step).batches|
  {
    match step {
      case Telemetry(sendBy, outputs, outcome) => TelemetryProgresses(strategy, s, sendBy, outputs, outcome);
      case Spans(processed, outputs, overThreshold, delay) => SpansProgress(strategy, s, outputs, overThreshold, delay);
      case Metrics(outputs, delay) => MetricsProgress(strategy, s, outputs, delay);
      case _ =>
    }
  }

  lemma {:induction false} StaysFollowed(strategy: Strategy, pre: seq<Step>, post: seq<Step>, d: nat, n: nat)
    requires Followed(Run(strategy, pre), d, n) && n <= |Run(strategy, pre).batches|
    ensures Followed(Run(strategy, pre + post), d, n) && n <= |Run(strategy, pre + post).batches|
  {
    if post == [] {
      assert pre + post == pre;
    } else {
      var s := Run(strategy, pre + post[..|post| - 1]);
      StaysFollowed(strategy, pre, post[..|post| - 1], d, n);
      RunNext(strategy, pre, post);
      if Enabled(strategy, s, Last(post)) {
        StepProgresses(strategy, s, Last(post));
      }
    }
  }

  /** A send has happened since there were n batches, or one is due and the handler will not miss it. */
  ghost predicate Served(s: State, n: nat) {
    |s.batches| > n || (s.shouldSend && (s.handler == Receiving ==> ShouldSend in s.channel))
  }

  lemma OutstandingServed(strategy: Strategy, pre: seq<Step>, post: seq<Step>, d: nat, n: nat)
    requires Followed(Run(strategy, pre), d, n) && n <= |Run(strategy, pre).batches|
    requires d <= Run(strategy, pre + post).now && NoTimerDue(Run(strategy, pre + post))
    ensures Served(Run(strategy, pre + post), n)
  {
    StaysFollowed(strategy, pre, post, d, n);
    RunInvariant(strategy, pre + post);
  }

  /** In every interleaving: whatever asks for a deadline, once it has passed and all timers that are due have fired,
      a send has happened since, or one is due and signalled. */
  lemma NoRequestLost(strategy: Strategy, pre: seq<Step>, step: Step, post: seq<Step>)
    requires var s := Run(strategy, pre);
             && Enabled(strategy, s, step) && Requested(strategy, s, step).Some?
             && Requested(strategy, s, step).value <= Run(strategy, pre + [step] + post).now
             && NoTimerDue(Run(strategy, pre + [step] + post))
    ensures Served(Run(strategy, pre + [step] + post), |Run(strategy, pre).batches|)
  {
    var s := Run(strategy, pre);
    RunOne(strategy, pre, step);
    StepIsFollowed(strategy, s, step);
    OutstandingServed(strategy, pre + [step], post, Requested(strategy, s, step).value, |s.batches|);
  }

  /** And so for every request outstanding at some point. */
  lemma NoOutstandingRequestLost(strategy: Strategy, pre: seq<Step>, post: seq<Step>, d: nat)
    requires d in Run(strategy, pre).requests
    requires d <= Run(strategy, pre + post).now && NoTimerDue(Run(strategy, pre + post))
    ensures Served(Run(strategy, pre + post), |Run(strategy, pre).batches|)
  {
    OutstandingServed(strategy, pre, post, d, |Run(strategy, pre).batches|);
  }

  /** A send that is due stays due and signalled until it happens. */
  lemma {:induction false} NoSendForgotten(strategy: Strategy, pre: seq<Step>, post: seq<Step>)
    requires Run(strategy, pre).shouldSend
    ensures Served(Run(strategy, pre + post), |Run(strategy, pre).batches|)
    ensures |Run(strategy, pre).batches| <= |Run(strategy, pre + post).batches|
  {
    RunInvariant(strategy, pre + post);
    if post == [] {
      assert pre + post == pre;
    } else {
      var s := Run(strategy, pre + post[..|post| - 1]);
      NoSendForgotten(strategy, pre, post[..|post| - 1]);
      RunNext(strategy, pre, post);
      if Enabled(strategy, s, Last(post)) {
        StepProgresses(strategy, s, Last(post));
      }
    }
  }

  /** When there are too many spans, a send is due at once. */
  lemma TooManySpansAreSent(strategy: Strategy, pre: seq<Step>, outputs: seq<Output>, delay: nat, post: seq<Step>)
    ensures Served(Run(strategy, pre + [Spans(true, outputs, true, delay)] + post), |Run(strategy, pre).batches|)
  {
    var step := Spans(true, outputs, true, delay);
    RunOne(strategy, pre, step);
    NoSendForgotten(strategy, pre + [step], post);
  }

  /** Shutdown sends everything that has been produced. */
  lemma ShutdownSendsAll(strategy: Strategy, steps: seq<Step>, outputs: seq<Output>)
    ensures var s := Run(strategy, steps + [Shutdown(outputs)]);
            s.buffer == [] && Flatten(s.batches) == Produced(strategy, steps) + outputs
  {
    RunOne(strategy, steps, Shutdown(outputs));
    NothingLostOrReordered(strategy, steps + [Shutdown(outputs)]);
    ProducedOne(strategy, steps, Shutdown(outputs));
    var s := Run(strategy, steps + [Shutdown(outputs)]);
    assert s.buffer == [] && Flatten(s.batches) + [] == Flatten(s.batches);
  }

  lemma ProducedOne(strategy: Strategy, steps: seq<Step>, step: Step)
    ensures Produced(strategy, steps + [step])
         == Produced(strategy, steps) + if Enabled(strategy, Run(strategy, steps), step) then OutputsOf(step) else []
  {
    assert (steps + [step])[..|steps|] == steps;
  }

  /** A deadline asked for has come. */
  ghost predicate RequestDue(s: State) {
    exists d :: d in s.requests && d <= s.now
  }

  /** A send becomes due in this step: an invocation ends, there are too many spans, or a deadline has come. */
  ghost predicate BecomesDue(strategy: Strategy, s: State, step: Step) {
    || (step.PushInvoke? && step.outcome == Done && strategy != LowOverhead)
    || (step.Telemetry? && step.outcome == Done && strategy != LowOverhead)
    || (step.Spans? && step.processed && step.overThreshold)
    || (step.TimerFires? && RequestDue(s))
    || (Requested(strategy, s, step).Some? && Requested(strategy, s, step).value <= s.now)
  }

  /** Nothing becomes due, and nothing is sent, before its time. */
  ghost predicate InTime(strategy: Strategy, s: State, step: Step, t: State) {
    && (t.shouldSend ==> s.shouldSend || BecomesDue(strategy, s, step))
    && (t.batches != s.batches ==> step.Shutdown? || (step == Check && (s.shouldSend || RequestDue(s))))
  }

  lemma AskInTime(s: State, time: nat)
    ensures SignalShouldSendBy(s, time).shouldSend ==> s.shouldSend || time <= s.now
    ensures SignalShouldSendBy(s, time).batches == s.batches
  {}

  lemma HandleInTime(strategy: Strategy, s: State, outputs: seq<Output>, outcome: Outcome)
    ensures var t := HandleTelemetry(strategy, s, outputs, outcome);
            t.batches == s.batches && (t.shouldSend ==> s.shouldSend || (outcome == Done && strategy != LowOverhead))
  {}

  lemma TelemetryInTime(strategy: Strategy, s: State, sendBy: Option<nat>, outputs: seq<Output>, outcome: Outcome)
    ensures InTime(strategy, s, Telemetry(sendBy, outputs, outcome),
                   Apply(strategy, s, Telemetry(sendBy, outputs, outcome)))
  {
    HandleInTime(strategy, Asked(strategy, s, sendBy), outputs, outcome);
    if sendBy.Some? {
      AskInTime(s, sendBy.value);
    }
  }

  lemma SpansInTime(strategy: Strategy, s: State, outputs: seq<Output>, overThreshold: bool, delay: nat)
    ensures InTime(strategy, s, Spans(true, outputs, overThreshold, delay),
                   Apply(strategy, s, Spans(true, outputs, overThreshold, delay)))
  {
    AskInTime(Append(s, outputs), s.now + delay);
  }

  lemma MetricsInTime(strategy: Strategy, s: State, outputs: seq<Output>, delay: nat)
    ensures InTime(strategy, s, Metrics(outputs, delay), Apply(strategy, s, Metrics(outputs, delay)))
  {
    AskInTime(s, s.now + delay);
  }

  lemma StepInTime(strategy: Strategy, s: State, step: Step)
    requires Invariant(s)
    ensures InTime(strategy, s, step, Next(strategy, s, step))
  {
    assert DeadlinePassed(s) ==> s.shouldSendBy.value in s.requests;
    match step {
      case PushInvoke(outputs, outcome) => HandleInTime(strategy, s.(handler := Checking), outputs, outcome);
      case Telemetry(sendBy, outputs, outcome) => TelemetryInTime(strategy, s, sendBy, outputs, outcome);
      case Spans(processed, outputs, overThreshold, delay) =>
        if processed {
          SpansInTime(strategy, s, outputs, overThreshold, delay);
        }
      case Metrics(outputs, delay) => MetricsInTime(strategy, s, outputs, delay);
      case _ =>
    }
  }

  /** In every interleaving, a send becomes due only when an invocation ends, when there are too many spans, or when an
      outstanding deadline has come; and apart from shutdown a batch goes out only when a send is due. */
  lemma NothingSentEarly(strategy: Strategy, steps: seq<Step>, step: Step)
    ensures InTime(strategy, Run(strategy, steps), step, Run(strategy, steps + [step]))
  {
    RunInvariant(strategy, steps);
    RunOne(strategy, steps, step);
    StepInTime(strategy, Run(strategy, steps), step);
  }

  // ---------------------------------------------------------------------------
  // The end of an invocation.

  /** The step ends by signalling the end of the invocation. */
  predicate SignalsDone(step: Step) {
    match step
    case PushInvoke(_, outcome) => outcome != NotDone
    case Telemetry(_, _, outcome) => outcome != NotDone
    case _ => false
  }

  /** The handler is about to receive the signal that was sent as number `index`. */
  predicate AboutToReceive(s: State, index: nat) {
    s.handler == Receiving && s.channel != [] && s.received == index
  }

  /** If after `post` the handler is about to receive the last signal of `steps`, then everything that had been
      appended by then has been sent. */
  ghost predicate CaughtUpAfter(strategy: Strategy, steps: seq<Step>, post: seq<Step>)
    requires Run(strategy, steps).channel != []
  {
    var s, t := Run(strategy, steps), Run(strategy, steps + post);
    AboutToReceive(t, s.received + |s.channel| - 1) ==> s.appended <= Flatten(t.batches)
  }

  ghost predicate AlwaysCaughtUp(strategy: Strategy, steps: seq<Step>)
    requires Run(strategy, steps).channel != []
  {
    forall post :: CaughtUpAfter(strategy, steps, post)
  }

  /** There is nothing to send, or it is time to send and the handler will look before it comes to the last signal. */
  predicate WillCatchUp(s: State) {
    s.buffer == [] || ((s.shouldSend || DeadlinePassed(s)) && (s.handler == Receiving ==> |s.channel| > 1))
  }

  /** The signal has been received, or what had been appended has been sent, or it is time to send and the handler will
      look before it comes to the signal. */
  ghost predicate Covered(s: State, index: nat, mark: nat) {
    || index < s.received
    || mark <= |Flatten(s.batches)|
    || ((s.shouldSend || DeadlinePassed(s)) && (s.handler == Receiving ==> s.received < index))
  }

  lemma SendCovers(s: State, index: nat, mark: nat)
    requires Invariant(s) && mark <= |s.appended|
    ensures Covered(SendTelemetry(s), index, mark)
  {
    SendKeeps(s);
  }

  lemma AskCovers(s: State, time: nat, index: nat, mark: nat)
    requires Covered(s, index, mark)
    ensures Covered(SignalShouldSendBy(s, time), index, mark)
  {}

  lemma HandleCovers(strategy: Strategy, s: State, outputs: seq<Output>, outcome: Outcome, index: nat, mark: nat)
    requires Covered(s, index, mark)
    ensures Covered(HandleTelemetry(strategy, s, outputs, outcome), index, mark)
  {}

  lemma SpansCover(strategy: Strategy, s: State, outputs: seq<Output>, overThreshold: bool, delay: nat, index: nat,
                   mark: nat)
    requires Covered(s, index, mark)
    ensures Covered(Apply(strategy, s, Spans(true, outputs, overThreshold, delay)), index, mark)
  {
    var appended := Append(s, outputs);
    if !overThreshold && strategy.SendAfterDelay() {
      AskCovers(appended, s.now + delay, index, mark);
      assert Apply(strategy, s, Spans(true, outputs, overThreshold, delay))
          == SignalShouldSendBy(appended, s.now + delay);
    }
  }

  lemma MetricsCover(strategy: Strategy, s: State, outputs: seq<Output>, delay: nat, index: nat, mark: nat)
    requires Covered(s, index, mark)
    ensures Covered(Apply(strategy, s, Metrics(outputs, delay)), index, mark)
  {
    AskCovers(s, s.now + delay, index, mark);
  }

  lemma StepCovers(strategy: Strategy, s: State, step: Step, index: nat, mark: nat)
    requires strategy != LowOverhead && Enabled(strategy, s, step)
    requires Invariant(s) && mark <= |s.appended| && Covered(s, index, mark)
    ensures Covered(Apply(strategy, s, step), index, mark)
  {
    match step {
      case Check => SendCovers(s, index, mark);
      case PushInvoke(outputs, outcome) =>
        HandleCovers(strategy, s.(handler := Checking), outputs, outcome, index, mark);
      case Telemetry(sendBy, outputs, outcome) =>
        if strategy.SendAfterDelay() && sendBy.Some? {
          AskCovers(s, sendBy.value, index, mark);
        }
        HandleCovers(strategy, Asked(strategy, s, sendBy), outputs, outcome, index, mark);
      case Spans(processed, outputs, overThreshold, delay) =>
        if processed {
          SpansCover(strategy, s, outputs, overThreshold, delay, index, mark);
        }
      case Metrics(outputs, delay) => MetricsCover(strategy, s, outputs, delay, index, mark);
      case Shutdown(outputs) =>
        AppendKeeps(s, outputs);
        SendCovers(Append(s, outputs), index, mark);
      case _ =>
    }
  }

  lemma {:induction false} RunCovers(strategy: Strategy, steps: seq<Step>, post: seq<Step>, index: nat, mark: nat)
    requires strategy != LowOverhead && mark <= |Run(strategy, steps).appended|
    requires Covered(Run(strategy, steps), index, mark)
    ensures Covered(Run(strategy, steps + post), index, mark)
    ensures Run(strategy, steps).appended <= Run(strategy, steps + post).appended
  {
    if post == [] {
      assert steps + post == steps;
    } else {
      var s := Run(strategy, steps + post[..|post| - 1]);
      RunCovers(strategy, steps, post[..|post| - 1], index, mark);
      RunNext(strategy, steps, post);
      RunInvariant(strategy, steps + post[..|post| - 1]);
      if Enabled(strategy, s, Last(post)) {
        StepCovers(strategy, s, Last(post), index, mark);
        StepProgresses(strategy, s, Last(post));
      }
    }
  }

  lemma CatchesUp(strategy: Strategy, steps: seq<Step>, post: seq<Step>)
    requires strategy != LowOverhead && Run(strategy, steps).channel != [] && WillCatchUp(Run(strategy, steps))
    ensures CaughtUpAfter(strategy, steps, post)
  {
    var s, t := Run(strategy, steps), Run(strategy, steps + post);
    RunInvariant(strategy, steps);
    RunInvariant(strategy, steps + post);
    RunCovers(strategy, steps, post, s.received + |s.channel| - 1, |s.appended|);
    if AboutToReceive(t, s.received + |s.channel| - 1) {
      assert Flatten(t.batches) == t.appended[..|Flatten(t.batches)|];
    }
  }

  // Without any reason to send, the handler can get to every signal without sending.

  /** The place of the handler in one round, from one wait to the next. */
  function Rank(h: Handler): nat {
    match h
    case Idle => 3
    case Starting => 2
    case Checking => 1
    case Receiving => 0
  }

  /** The handler's next step; nothing is received in the meantime. */
  function HandlerStep(h: Handler): Step {
    match h
    case Idle => BeginInvoke
    case Starting => PushInvoke([], NotDone)
    case Checking => Check
    case Receiving => ReceiveSignal
  }

  lemma HandlerMoves(strategy: Strategy, s: State)
    requires strategy != LowOverhead && !s.shouldSend && !DeadlinePassed(s) && s.channel != []
    ensures Enabled(strategy, s, HandlerStep(s.handler))
    ensures var t := Apply(strategy, s, HandlerStep(s.handler));
            && !t.shouldSend && !DeadlinePassed(t) && t.batches == s.batches
            && t.received + |t.channel| == s.received + |s.channel|
            && if s.handler == Receiving then t.received == s.received + 1
               else t.received == s.received && Rank(t.handler) + 1 == Rank(s.handler)
  {}

  lemma {:induction false} GetsThere(strategy: Strategy, steps: seq<Step>, index: nat) returns (post: seq<Step>)
    requires var s := Run(strategy, steps);
             && strategy != LowOverhead && !s.shouldSend && !DeadlinePassed(s)
             && s.received <= index < s.received + |s.channel|
    ensures AboutToReceive(Run(strategy, steps + post), index)
    ensures Run(strategy, steps + post).batches == Run(strategy, steps).batches
    decreases index - Run(strategy, steps).received, Rank(Run(strategy, steps).handler)
  {
    var s := Run(strategy, steps);
    if AboutToReceive(s, index) {
      post := [];
      assert steps + post == steps;
    } else {
      var step := HandlerStep(s.handler);
      HandlerMoves(strategy, s);
      RunOne(strategy, steps, step);
      var rest := GetsThere(strategy, steps + [step], index);
      post := [step] + rest;
      Associative(steps, [step], rest);
    }
  }

  /** Steps other than those of the handler add signals at the end: the end of an invocation as the last one if and only
      if the step comes to it, and otherwise requests to send. */
  ghost predicate AddsSignals(step: Step, channel: seq<Signal>, channel': seq<Signal>) {
    && channel <= channel'
    && (SignalsDone(step) ==> channel' != [] && |channel| < |channel'| && Last(channel') == InvocationDone)
    && forall i :: |channel| <= i < |channel'| - (if SignalsDone(step) then 1 else 0) ==> channel'[i] == ShouldSend
  }

  lemma AskAddsSignals(s: State, time: nat)
    ensures SignalShouldSendBy(s, time).channel == s.channel
            || SignalShouldSendBy(s, time).channel == s.channel + [ShouldSend]
    ensures SignalShouldSendBy(s, time).received == s.received
  {}

  lemma HandleAddsSignals(strategy: Strategy, s: State, outputs: seq<Output>, outcome: Outcome)
    ensures HandleTelemetry(strategy, s, outputs, outcome).channel
         == s.channel + (if outcome == Done && strategy != LowOverhead then [ShouldSend] else [])
            + if outcome == NotDone then [] else [InvocationDone]
    ensures HandleTelemetry(strategy, s, outputs, outcome).received == s.received
  {}

  lemma TelemetryAddsSignals(strategy: Strategy, s: State, sendBy: Option<nat>, outputs: seq<Output>, outcome: Outcome)
    ensures var t := Apply(strategy, s, Telemetry(sendBy, outputs, outcome));
            AddsSignals(Telemetry(sendBy, outputs, outcome), s.channel, t.channel) && t.received == s.received
  {
    HandleAddsSignals(strategy, Asked(strategy, s, sendBy), outputs, outcome);
    if sendBy.Some? {
      AskAddsSignals(s, sendBy.value);
    }
  }

  lemma SpansAddSignals(strategy: Strategy, s: State, outputs: seq<Output>, overThreshold: bool, delay: nat)
    ensures var t := Apply(strategy, s, Spans(true, outputs, overThreshold, delay));
            AddsSignals(Spans(true, outputs, overThreshold, delay), s.channel, t.channel) && t.received == s.received
  {
    AskAddsSignals(Append(s, outputs), s.now + delay);
  }

  lemma MetricsAddSignals(strategy: Strategy, s: State, outputs: seq<Output>, delay: nat)
    ensures var t := Apply(strategy, s, Metrics(outputs, delay));
            AddsSignals(Metrics(outputs, delay), s.channel, t.channel) && t.received == s.received
  {
    AskAddsSignals(s, s.now + delay);
  }

  lemma PushAddsSignals(strategy: Strategy, s: State, outputs: seq<Output>, outcome: Outcome)
    requires s.handler == Starting
    ensures var t := Apply(strategy, s, PushInvoke(outputs, outcome));
            AddsSignals(PushInvoke(outputs, outcome), s.channel, t.channel) && t.received == s.received
  {
    HandleAddsSignals(strategy, s.(handler := Checking), outputs, outcome);
  }

  lemma StepAddsSignals(strategy: Strategy, s: State, step: Step)
    requires Enabled(strategy, s, step) && !step.BeginInvoke? && !step.ReceiveSignal?
    ensures AddsSignals(step, s.channel, Apply(strategy, s, step).channel)
    ensures Apply(strategy, s, step).received == s.received
  {
    match step {
      case PushInvoke(outputs, outcome) => PushAddsSignals(strategy, s, outputs, outcome);
      case Telemetry(sendBy, outputs, outcome) => TelemetryAddsSignals(strategy, s, sendBy, outputs, outcome);
      case Spans(processed, outputs, overThreshold, delay) =>
        if processed {
          SpansAddSignals(strategy, s, outputs, overThreshold, delay);
        }
      case Metrics(outputs, delay) => MetricsAddSignals(strategy, s, outputs, delay);
      case _ =>
    }
  }

  /** In t, some of the signals of s have been received, and the others are next. */
  ghost predicate StillQueued(s: State, t: State) {
    && s.received <= t.received
    && (t.received - s.received <= |s.channel| ==> s.channel[t.received - s.received..] <= t.channel)
  }

  lemma StepKeepsQueued(strategy: Strategy, s: State, t: State, step: Step)
    requires strategy != LowOverhead && StillQueued(s, t) && Enabled(strategy, t, step)
    ensures StillQueued(s, Apply(strategy, t, step))
  {
    if !step.BeginInvoke? && !step.ReceiveSignal? {
      StepAddsSignals(strategy, t, step);
    }
  }

  /** Signals are received in the order in which they were sent. */
  lemma {:induction false} SignalsInOrder(strategy: Strategy, pre: seq<Step>, post: seq<Step>)
    requires strategy != LowOverhead
    ensures StillQueued(Run(strategy, pre), Run(strategy, pre + post))
  {
    if post == [] {
      assert pre + post == pre;
    } else {
      var t := Run(strategy, pre + post[..|post| - 1]);
      SignalsInOrder(strategy, pre, post[..|post| - 1]);
      RunNext(strategy, pre, post);
      if Enabled(strategy, t, Last(post)) {
        StepKeepsQueued(strategy, Run(strategy, pre), t, Last(post));
      }
    }
  }

  /** The last signal that such a step sends is the end of the invocation, and this is what the handler is about to
      receive when the count comes to it. */
  lemma EndIsReceived(strategy: Strategy, pre: seq<Step>, step: Step, post: seq<Step>)
    requires strategy != LowOverhead && Enabled(strategy, Run(strategy, pre), step) && SignalsDone(step)
    ensures var s, t := Run(strategy, pre + [step]), Run(strategy, pre + [step] + post);
            s.channel != [] && (AboutToReceive(t, s.received + |s.channel| - 1) ==> t.channel[0] == InvocationDone)
  {
    RunOne(strategy, pre, step);
    StepAddsSignals(strategy, Run(strategy, pre), step);
    SignalsInOrder(strategy, pre + [step], post);
  }

  /** When sending after each invocation, the end of an invocation is received only after everything appended by then
      has been sent, whatever happens in between, if and only if there was nothing to send when it was signalled, or it
      was time to send and the handler was not waiting for just that signal. */
  lemma CaughtUpExactlyWhen(strategy: Strategy, pre: seq<Step>, step: Step)
    requires strategy != LowOverhead && Enabled(strategy, Run(strategy, pre), step) && SignalsDone(step)
    ensures Run(strategy, pre + [step]).channel != []
    ensures AlwaysCaughtUp(strategy, pre + [step]) <==> WillCatchUp(Run(strategy, pre + [step]))
  {
    RunOne(strategy, pre, step);
    if WillCatchUp(Run(strategy, pre + [step])) {
      AlwaysCatchesUp(strategy, pre + [step]);
    } else {
      var post := FallsBehind(strategy, pre + [step]);
    }
  }

  lemma AlwaysCatchesUp(strategy: Strategy, steps: seq<Step>)
    requires strategy != LowOverhead && Run(strategy, steps).channel != [] && WillCatchUp(Run(strategy, steps))
    ensures AlwaysCaughtUp(strategy, steps)
  {
    forall post ensures CaughtUpAfter(strategy, steps, post) {
      CatchesUp(strategy, steps, post);
    }
  }

  lemma FallsBehind(strategy: Strategy, steps: seq<Step>) returns (post: seq<Step>)
    requires strategy != LowOverhead && Run(strategy, steps).channel != [] && !WillCatchUp(Run(strategy, steps))
    ensures !CaughtUpAfter(strategy, steps, post)
  {
    var s := Run(strategy, steps);
    RunInvariant(strategy, steps);
    assert |s.appended| == |Flatten(s.batches)| + |s.buffer|;
    if !s.shouldSend && !DeadlinePassed(s) {
      post := GetsThere(strategy, steps, s.received + |s.channel| - 1);
    } else {
      post := [];
      assert steps + post == steps;
    }
  }

  lemma DoneWillCatchUp(strategy: Strategy, s: State, outputs: seq<Output>)
    requires strategy != LowOverhead
    ensures WillCatchUp(HandleTelemetry(strategy, s, outputs, Done))
  {}

  /** That is so after every processing that succeeded. */
  lemma NoOutputLeftBehind(strategy: Strategy, pre: seq<Step>, step: Step)
    requires strategy != LowOverhead && Enabled(strategy, Run(strategy, pre), step)
    requires (step.PushInvoke? || step.Telemetry?) && step.outcome == Done
    ensures Run(strategy, pre + [step]).channel != [] && AlwaysCaughtUp(strategy, pre + [step])
  {
    var s := Run(strategy, pre);
    RunOne(strategy, pre, step);
    CaughtUpExactlyWhen(strategy, pre, step);
    DoneWillCatchUp(strategy, if step.PushInvoke? then s.(handler := Checking) else Asked(strategy, s, step.sendBy),
                    step.outputs);
  }

  /** The state in which a failed processing finds the coordination. */
  function BeforeFailure(strategy: Strategy, s: State, step: Step): State {
    if step.Telemetry? then Asked(strategy, s, step.sendBy) else s
  }

  /** After a failed processing it is so exactly when, before the failure, there was nothing to send and nothing was
      added, or it was time to send and the handler was not waiting at an empty channel. */
  lemma FailureCaughtUpExactlyWhen(strategy: Strategy, pre: seq<Step>, step: Step)
    requires strategy != LowOverhead && Enabled(strategy, Run(strategy, pre), step)
    requires (step.PushInvoke? || step.Telemetry?) && step.outcome == Failed
    ensures var s := BeforeFailure(strategy, Run(strategy, pre), step);
            && Run(strategy, pre + [step]).channel != []
            && (AlwaysCaughtUp(strategy, pre + [step])
                <==> s.buffer + step.outputs == []
                     || ((s.shouldSend || DeadlinePassed(s)) && (s.handler == Receiving ==> s.channel != [])))
  {
    RunOne(strategy, pre, step);
    CaughtUpExactlyWhen(strategy, pre, step);
  }

  /** So a failure can leave outputs behind: the handler receives the end of the invocation and they are in no batch. */
  lemma FailureMayLeaveOutputBehind(o: Output) returns (steps: seq<Step>)
    ensures var s := Run(ReportAfterInvocation, steps);
            && Enabled(ReportAfterInvocation, s, ReceiveSignal)
            && s.channel == [InvocationDone] && s.appended == [o] && Flatten(s.batches) == []
  {
    var strategy := ReportAfterInvocation;
    var a, b, c, d := BeginInvoke, PushInvoke([], NotDone), Check, Telemetry(None, [o], Failed);
    steps := [a, b, c, d];
    assert steps[..3] == [a, b, c] && [a, b, c][..2] == [a, b] && [a, b][..1] == [a] && [a][..0] == [];
    assert Run(strategy, [a]) == INITIAL.(handler := Starting);
    assert Run(strategy, [a, b]) == INITIAL.(handler := Checking);
    assert Run(strategy, [a, b, c]) == INITIAL.(handler := Receiving);
  }
}
