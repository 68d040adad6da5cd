/** All the logs of an invocation refer to one span, that of the invocation, and its function spans are
    accounted for (src/telemetry/mod.rs, src/telemetry/processor/telemetry_processor.rs). */
module Correlation {
  import opened Sequences
  import opened Telemetry
  import opened SpanCapture
  import opened InvocationProcessing
  import DelayedLogs

  predicate IsSpans(step: Step) {
    step.OnSpans?
  }

  predicate IsInitStart(step: Step) {
    step.OnEvent? && step.event.record.PlatformInitStart?
  }

  predicate IsInitReport(step: Step) {
    step.OnEvent? && step.event.record.PlatformInitReport?
  }

  lemma NeverInFront(steps: seq<Step>, p: Step -> bool)
    requires steps != []
    ensures Never(steps, p) <==> Never(steps[..|steps| - 1], p) && !p(Last(steps))
  {}

  // ---------------------------------------------------------------------------
  // The state of an invocation in terms of what arrived.

  lemma StepInit(config: Config, s: InvocationState, step: Step)
    ensures NextState(config, s, step).initStarted <==> s.initStarted || IsInitStart(step)
    ensures NextState(config, s, step).initReported <==> s.initReported || IsInitReport(step)
    ensures !IsInitStart(step) ==> NextState(config, s, step).initSpanId == s.initSpanId
    ensures NextState(config, s, step).invoke == s.invoke
  {
    if step.OnEvent? {
      match step.event.record
      case PlatformInitStart =>
      case PlatformInitReport =>
      case _ =>
    }
  }

  lemma StepTracing(config: Config, s: InvocationState, step: Step)
    ensures NextState(config, s, step).tracing
         == if step.OnSpans? then AfterSpans(s.tracing, step.spans, config.excludes) else s.tracing
  {}

  lemma {:induction false} InitFlags(config: Config, invoke: InvokeEvent, steps: seq<Step>)
    ensures Run(config, invoke, steps).state.initStarted <==> !Never(steps, IsInitStart)
    ensures Run(config, invoke, steps).state.initReported <==> !Never(steps, IsInitReport)
  {
    if steps != [] {
      NeverInFront(steps, IsInitStart);
      NeverInFront(steps, IsInitReport);
      StepInit(config, Run(config, invoke, steps[..|steps| - 1]).state, Last(steps));
      InitFlags(config, invoke, steps[..|steps| - 1]);
    }
  }

  lemma {:induction false} ReportedFlag(config: Config, invoke: InvokeEvent, steps: seq<Step>)
    ensures Run(config, invoke, steps).state.reported <==> !Never(steps, IsReport)
  {
    if steps != [] {
      var front := steps[..|steps| - 1];
      NeverInFront(steps, IsReport);
      StepReported(config, Run(config, invoke, front).state, Last(steps));
      ReportedFlag(config, invoke, front);
    }
  }

  lemma StepReported(config: Config, s: InvocationState, step: Step)
    ensures NextState(config, s, step).reported <==> s.reported || IsReport(step)
  {
    if step.OnEvent? {
      match step.event.record
      case PlatformReport(_) =>
      case _ =>
    }
  }

  function Fresh(config: Config, invoke: InvokeEvent): TracingState {
    NewTracingState(config.sampleAll || invoke.sampled)
  }

  lemma CaptureBatch(t: TracingState, u: TracingState, xs: seq<Scoped>, rs: seq<ResourceSpans>,
                     excludes: string -> bool)
    requires u == CaptureAll(t, xs, excludes).(processedFunctionSpans := u.processedFunctionSpans,
                                               language := u.language)
    ensures var v := AfterSpans(u, rs, excludes);
            && v == CaptureAll(t, xs + AllSpans(rs), excludes).(processedFunctionSpans := v.processedFunctionSpans,
                                                                language := v.language)
            && v.processedFunctionSpans == u.processedFunctionSpans + |AllSpans(rs)|
    ensures ForwardAll(t, xs + AllSpans(rs), excludes)
         == ForwardAll(t, xs, excludes) + ForwardAll(u, AllSpans(rs), excludes)
  {
    var c := CaptureAll(t, xs, excludes);
    CaptureAppend(t, xs, AllSpans(rs), excludes);
    CaptureIgnoresCount(c, u.processedFunctionSpans, AllSpans(rs), excludes);
    CaptureIgnoresLanguage(c.(processedFunctionSpans := u.processedFunctionSpans), u.language, AllSpans(rs), excludes);
  }

  /** The slots of an invocation are those filled by all its spans in order, however they were batched. */
  lemma {:induction false} TracingOfRun(config: Config, invoke: InvokeEvent, steps: seq<Step>)
    ensures var t := Run(config, invoke, steps).state.tracing;
            && t == CaptureAll(Fresh(config, invoke), SpansIn(steps), config.excludes)
                    .(processedFunctionSpans := t.processedFunctionSpans, language := t.language)
            && t.processedFunctionSpans == |SpansIn(steps)|
  {
    if steps != [] {
      var front, step := steps[..|steps| - 1], Last(steps);
      TracingOfRun(config, invoke, front);
      StepTracing(config, Run(config, invoke, front).state, step);
      if step.OnSpans? {
        CaptureBatch(Fresh(config, invoke), Run(config, invoke, front).state.tracing, SpansIn(front), step.spans,
                     config.excludes);
      } else {
        assert SpansIn(steps) == SpansIn(front);
      }
    }
  }

  lemma {:induction false} CaptureKeepsSampling(t: TracingState, xs: seq<Scoped>, excludes: string -> bool)
    ensures CaptureAll(t, xs, excludes).shouldProduceSpans == t.shouldProduceSpans
  {
    if xs != [] {
      CaptureKeepsSampling(t, xs[..|xs| - 1], excludes);
    }
  }

  /** Each slot holds the first span of its category. */
  lemma SlotOfRun(config: Config, invoke: InvokeEvent, steps: seq<Step>, c: Category)
    requires c.Capturable()
    ensures Run(config, invoke, steps).state.tracing.Slot(c) == FirstOf(SpansIn(steps), c, config.excludes)
    ensures Run(config, invoke, steps).state.tracing.Slot(c).Some? <==> Has(SpansIn(steps), c)
  {
    TracingOfRun(config, invoke, steps);
    SlotHoldsFirst(Fresh(config, invoke), SpansIn(steps), c, config.excludes);
  }

  lemma StepDelay(config: Config, s: InvocationState, step: Step)
    ensures NextState(config, s, step).delayingLogs
       <==> s.delayingLogs
            && (config.structuredLogs ==>
                  && !IsDone(step)
                  && (step.OnSpans? ==> NextState(config, s, step).tracing.cxEarlyInvocation.None?))
  {}

  lemma {:induction false} DelayOfRun(config: Config, invoke: InvokeEvent, steps: seq<Step>)
    ensures Run(config, invoke, steps).state.delayingLogs
       <==> config.tracingMode.OtelInstrumentation?
            && (config.structuredLogs ==>
                  && Never(steps, IsDone)
                  && Run(config, invoke, steps).state.tracing.cxEarlyInvocation.None?)
  {
    if steps != [] {
      var front, step := steps[..|steps| - 1], Last(steps);
      var s := Run(config, invoke, front).state;
      NeverInFront(steps, IsDone);
      DelayOfRun(config, invoke, front);
      StepDelay(config, s, step);
      StepKeepsSlot(config, s, step, CxEarlyInvocation);
    }
  }

  /** Logs are delayed exactly in OTel mode, until the runtime is done or an early invocation span arrives. */
  lemma DelayedExactlyWhen(config: Config, invoke: InvokeEvent, steps: seq<Step>)
    ensures Run(config, invoke, steps).state.delayingLogs
       <==> config.tracingMode.OtelInstrumentation?
            && (config.structuredLogs ==> Never(steps, IsDone) && !Has(SpansIn(steps), CxEarlyInvocation))
  {
    DelayOfRun(config, invoke, steps);
    SlotOfRun(config, invoke, steps, CxEarlyInvocation);
  }

  // ---------------------------------------------------------------------------
  // The span that logs refer to.

  ghost predicate AllWith(logs: seq<LogRecord>, spanRef: SpanRef) {
    forall i :: 0 <= i < |logs| ==> logs[i].spanRef == spanRef
  }

  lemma StepLogsWith(config: Config, s: InvocationState, step: Step, logs: seq<LogRecord>)
    requires AllWith(logs, Prepared(config, s, step).CurrentSpanRef())
    ensures AllWith(logs + DoStep(config, s, step).logs, Prepared(config, s, step).CurrentSpanRef())
  {
    DraftsAreStamped(s.lastLog, Prepared(config, s, step).CurrentSpanRef(), DraftsOf(config, s, step));
  }

  lemma EventKeepsRef(config: Config, s: InvocationState, step: Step)
    requires step.OnEvent? && (s.initReported || (!IsInitStart(step) && !IsInitReport(step)))
    ensures NextState(config, s, step).CurrentSpanRef() == s.CurrentSpanRef() && Prepared(config, s, step) == s
    ensures s.initReported ==> NextState(config, s, step).initReported
  {
    StepInit(config, s, step);
    StepTracing(config, s, step);
  }

  lemma RunNext(config: Config, invoke: InvokeEvent, pre: seq<Step>, post: seq<Step>)
    requires post != []
    ensures var r, r' := Run(config, invoke, pre + post[..|post| - 1]), Run(config, invoke, pre + post);
            var e := DoStep(config, r.state, Last(post));
            && r'.state == e.state && r'.logs == r.logs + e.logs && r'.spans == r.spans + e.spans
    ensures var s, s' := Run(config, invoke, pre + post[..|post| - 1]).state, Run(config, invoke, pre + post).state;
            s' == NextState(config, s, Last(post)).(lastLog := s'.lastLog)
  {
    assert (pre + post)[..|pre + post| - 1] == pre + post[..|post| - 1];
  }

  lemma RunOne(config: Config, invoke: InvokeEvent, pre: seq<Step>, step: Step)
    ensures var r, r' := Run(config, invoke, pre), Run(config, invoke, pre + [step]);
            var e := DoStep(config, r.state, step);
            r'.state == e.state && r'.logs == r.logs + e.logs && r'.spans == r.spans + e.spans
    ensures var s, s' := Run(config, invoke, pre).state, Run(config, invoke, pre + [step]).state;
            s' == NextState(config, s, step).(lastLog := s'.lastLog)
  {
    assert [step][..0] == [] && pre + [] == pre;
    RunNext(config, invoke, pre, [step]);
  }

  /** Once no spans come in any more and init is over, or no init event comes, the reference stays. */
  lemma {:induction false} RefStays(config: Config, invoke: InvokeEvent, pre: seq<Step>, post: seq<Step>)
    requires Never(post, IsSpans)
    requires Run(config, invoke, pre).state.initReported || (Never(post, IsInitStart) && Never(post, IsInitReport))
    requires AllWith(Run(config, invoke, pre).logs, Run(config, invoke, pre).state.CurrentSpanRef())
    ensures var r, s := Run(config, invoke, pre + post), Run(config, invoke, pre).state;
            && r.state.CurrentSpanRef() == s.CurrentSpanRef()
            && AllWith(r.logs, s.CurrentSpanRef())
            && (s.initReported ==> r.state.initReported)
  {
    if post == [] {
      assert pre + post == pre;
    } else {
      var front, step := post[..|post| - 1], Last(post);
      var r := Run(config, invoke, pre + front);
      RefStays(config, invoke, pre, front);
      EventKeepsRef(config, r.state, step);
      StepLogsWith(config, r.state, step, r.logs);
      RunNext(config, invoke, pre, post);
    }
  }

  /** In OTel mode, without an early invocation span: when the runtime is done after `pre`, no spans come any
      more, and init is over or stays as it is, all the logs of the invocation refer to one span. */
  lemma OneReferencePerInvocation(config: Config, invoke: InvokeEvent, pre: seq<Step>, post: seq<Step>)
    requires config.tracingMode.OtelInstrumentation?
    requires Never(pre, IsDone) && Never(pre, IsReport) && !Has(SpansIn(pre), CxEarlyInvocation)
    requires Never(post, IsSpans)
    requires !Never(pre, IsInitReport) || (Never(post, IsInitStart) && Never(post, IsInitReport))
    ensures AllWith(Run(config, invoke, pre + post).logs, Run(config, invoke, pre).state.CurrentSpanRef())
    ensures Run(config, invoke, pre + post).state.CurrentSpanRef() == Run(config, invoke, pre).state.CurrentSpanRef()
  {
    DelayedExactlyWhen(config, invoke, pre);
    DelayedLogs.SilentWhileDelayed(config, invoke, pre);
    InitFlags(config, invoke, pre);
    RefStays(config, invoke, pre, post);
  }

  lemma RefOfInvocationSpan(s: InvocationState)
    requires s.tracing.InvocationSpan().Some? && !s.InInit()
    ensures var span := s.tracing.InvocationSpan().value; s.CurrentSpanRef() == SpanRef(span.traceId, span.spanId)
  {}

  lemma DoneSpans(config: Config, s: InvocationState, done: Step)
    requires IsDone(done) && ProducesSpans(config, s)
    ensures DoStep(config, s, done).spans == SpecialSpans(s.tracing, DoneOf(done.event))
  {}

  /** And, unless init is still going on, that is the invocation span that goes out when the runtime is done,
      if one was captured. */
  lemma ReferenceIsTheInvocationSpan(config: Config, invoke: InvokeEvent, pre: seq<Step>, done: Step)
    requires IsDone(done) && ProducesSpans(config, Run(config, invoke, pre).state)
    requires Run(config, invoke, pre).state.tracing.InvocationSpan().Some?
    requires Never(pre, IsInitStart) || !Never(pre, IsInitReport)
    ensures var s := Run(config, invoke, pre).state;
            var out := InvocationSpanOut(s.tracing, DoneOf(done.event));
            && Run(config, invoke, pre + [done]).spans
               == Run(config, invoke, pre).spans
                  + (TriggerSpan(s.tracing, DoneOf(done.event)) + out + GenericLeftOver(s.tracing))
            && out != [] && s.CurrentSpanRef() == SpanRef(out[0].span.traceId, out[0].span.spanId)
  {
    var s := Run(config, invoke, pre).state;
    InitFlags(config, invoke, pre);
    RefOfInvocationSpan(s);
    DoneSpans(config, s, done);
    InvocationSpanGoesOut(s.tracing, DoneOf(done.event));
    RunOne(config, invoke, pre, done);
  }

  /** The message is that of the invocation span if its status says that it failed, and only then there is one. */
  ghost predicate Tells(span: Option<Span>, message: Option<string>) {
    forall m :: message == Some(m) <==> span.Some? && span.value.status == Some(SpanStatus(m, StatusCode.ErrorCode))
  }

  /** The runtime-done log tells the failure of the very invocation span that goes out, unless only its early version
      is known. */
  lemma FailureIsLogged(config: Config, s: InvocationState, done: Step)
    requires IsDone(done) && ProducesSpans(config, s) && config.structuredLogs && config.logRuntimeDone
    requires s.tracing.InvocationSpan().Some? && (s.tracing.cxInvocation.Some? || s.tracing.cxEarlyInvocation.None?)
    ensures var out := InvocationSpanOut(s.tracing, DoneOf(done.event));
            && out != [] && DoStep(config, s, done).spans
                            == TriggerSpan(s.tracing, DoneOf(done.event)) + out + GenericLeftOver(s.tracing)
            && DraftsOf(config, s, done) != []
            && Last(DraftsOf(config, s, done)).body.RuntimeDoneBody?
            && Tells(Some(out[0].span), Last(DraftsOf(config, s, done)).body.handlerError)
  {
    InvocationSpanGoesOut(s.tracing, DoneOf(done.event));
    DoneSpans(config, s, done);
  }

  // ---------------------------------------------------------------------------
  // With an early invocation span.

  lemma {:induction false} CaptureKeepsSlot(t: TracingState, xs: seq<Scoped>, c: Category, excludes: string -> bool)
    requires t.Slot(c).Some?
    ensures CaptureAll(t, xs, excludes).Slot(c) == t.Slot(c)
  {
    if xs != [] {
      CaptureKeepsSlot(t, xs[..|xs| - 1], c, excludes);
    }
  }

  lemma StepKeepsSlot(config: Config, s: InvocationState, step: Step, c: Category)
    ensures s.tracing.Slot(c).Some? ==> NextState(config, s, step).tracing.Slot(c) == s.tracing.Slot(c)
    ensures step.OnEvent? ==> NextState(config, s, step).tracing == s.tracing
  {
    if s.tracing.Slot(c).Some? && step.OnSpans? {
      CaptureKeepsSlot(s.tracing, AllSpans(step.spans), c, config.excludes);
    }
  }

  /** The span has the ids of the reference. */
  predicate HasIds(s: Option<SpanWithScope>, spanRef: SpanRef) {
    s.Some? && s.value.span.traceId == spanRef.traceId && s.value.span.spanId == spanRef.spanId
  }

  /** The final invocation span, if it is there, has the ids of the reference. */
  predicate FinalIds(s: InvocationState, spanRef: SpanRef) {
    s.tracing.cxInvocation.Some? ==> HasIds(s.tracing.cxInvocation, spanRef)
  }

  /** An early invocation span is there, and the final one, if it is there, has the same ids; init is over. */
  predicate Settled(s: InvocationState, spanRef: SpanRef) {
    && HasIds(s.tracing.cxEarlyInvocation, spanRef)
    && FinalIds(s, spanRef)
    && !s.InInit()
  }

  lemma SettledRef(s: InvocationState, spanRef: SpanRef)
    requires Settled(s, spanRef)
    ensures s.CurrentSpanRef() == spanRef
  {}

  lemma PreparedKeepsAll(config: Config, s: InvocationState, step: Step)
    ensures Prepared(config, s, step).tracing == NextState(config, s, step).tracing
    ensures Prepared(config, s, step).InInit() == s.InInit()
  {
    StepTracing(config, s, step);
  }

  lemma FinalIdsBefore(config: Config, s: InvocationState, step: Step, spanRef: SpanRef)
    requires FinalIds(NextState(config, s, step), spanRef)
    ensures FinalIds(s, spanRef)
  {
    StepKeepsSlot(config, s, step, CxInvocation);
  }

  lemma EarlyStep(config: Config, r: Effect, step: Step, spanRef: SpanRef)
    requires AllWith(r.logs, spanRef) && Settled(r.state, spanRef)
    requires r.state.initReported || (!IsInitStart(step) && !IsInitReport(step))
    requires FinalIds(NextState(config, r.state, step), spanRef)
    ensures AllWith(r.logs + DoStep(config, r.state, step).logs, spanRef)
    ensures Settled(NextState(config, r.state, step), spanRef)
    ensures r.state.initReported ==> NextState(config, r.state, step).initReported
  {
    StepKeepsSlot(config, r.state, step, CxEarlyInvocation);
    StepInit(config, r.state, step);
    SettledNext(config, r.state, step, spanRef);
    StepLogsWith(config, r.state, step, r.logs);
  }

  /** From the moment an early invocation span is there, all logs refer to it, as long as no init event reopens
      init and the final invocation span, if it arrives, has the same ids. */
  lemma {:induction false} EarlyReferenceStays(config: Config, invoke: InvokeEvent, pre: seq<Step>, post: seq<Step>,
                                               spanRef: SpanRef)
    requires AllWith(Run(config, invoke, pre).logs, spanRef) && Settled(Run(config, invoke, pre).state, spanRef)
    requires Run(config, invoke, pre).state.initReported || (Never(post, IsInitStart) && Never(post, IsInitReport))
    requires FinalIds(Run(config, invoke, pre + post).state, spanRef)
    ensures var r := Run(config, invoke, pre + post);
            && AllWith(r.logs, spanRef) && Settled(r.state, spanRef)
            && (Run(config, invoke, pre).state.initReported ==> r.state.initReported)
  {
    if post == [] {
      assert pre + post == pre;
    } else {
      var front, step := post[..|post| - 1], Last(post);
      var r := Run(config, invoke, pre + front);
      RunNext(config, invoke, pre, post);
      FinalIdsBefore(config, r.state, step, spanRef);
      EarlyReferenceStays(config, invoke, pre, front, spanRef);
      EarlyStep(config, r, step, spanRef);
    }
  }

  lemma SettledNext(config: Config, s: InvocationState, step: Step, spanRef: SpanRef)
    requires Settled(s, spanRef)
    requires var s' := NextState(config, s, step);
             && s'.tracing.cxEarlyInvocation == s.tracing.cxEarlyInvocation
             && FinalIds(s', spanRef)
             && !s'.InInit()
    ensures Settled(NextState(config, s, step), spanRef)
    ensures Prepared(config, s, step).CurrentSpanRef() == spanRef
  {
    PreparedKeepsAll(config, s, step);
    SettledRef(Prepared(config, s, step), spanRef);
  }

  lemma {:induction false} FinalIdsEarlier(config: Config, invoke: InvokeEvent, pre: seq<Step>, post: seq<Step>,
                                           spanRef: SpanRef)
    requires FinalIds(Run(config, invoke, pre + post).state, spanRef)
    ensures FinalIds(Run(config, invoke, pre).state, spanRef)
  {
    if post == [] {
      assert pre + post == pre;
    } else {
      RunNext(config, invoke, pre, post);
      FinalIdsBefore(config, Run(config, invoke, pre + post[..|post| - 1]).state, Last(post), spanRef);
      FinalIdsEarlier(config, invoke, pre, post[..|post| - 1], spanRef);
    }
  }

  lemma EarlyBatch(config: Config, r: Effect, batch: Step, spanRef: SpanRef)
    requires batch.OnSpans? && r.logs == [] && !r.state.InInit()
    requires HasIds(NextState(config, r.state, batch).tracing.cxEarlyInvocation, spanRef)
    requires FinalIds(NextState(config, r.state, batch), spanRef)
    ensures AllWith(r.logs + DoStep(config, r.state, batch).logs, spanRef)
    ensures Settled(NextState(config, r.state, batch), spanRef)
  {
    StepInit(config, r.state, batch);
    PreparedKeepsAll(config, r.state, batch);
    SettledRef(Prepared(config, r.state, batch), spanRef);
    StepLogsWith(config, r.state, batch, r.logs);
  }

  /** In OTel mode with structured logs, when an early invocation span arrives in a batch before the runtime
      is done and after init is over, and the final invocation span, if it arrives, has the same ids, all the
      logs of the invocation refer to it. */
  lemma EarlyReferencePerInvocation(config: Config, invoke: InvokeEvent, pre: seq<Step>, batch: Step, post: seq<Step>,
                                    spanRef: SpanRef)
    requires config.tracingMode.OtelInstrumentation? && config.structuredLogs
    requires Never(pre, IsDone) && Never(pre, IsReport) && !Has(SpansIn(pre), CxEarlyInvocation)
    requires batch.OnSpans? && HasIds(FirstOf(SpansIn(pre + [batch]), CxEarlyInvocation, config.excludes), spanRef)
    requires Never(pre, IsInitStart) || !Never(pre, IsInitReport)
    requires !Never(pre, IsInitReport) || (Never(post, IsInitStart) && Never(post, IsInitReport))
    requires FinalIds(Run(config, invoke, pre + [batch] + post).state, spanRef)
    ensures AllWith(Run(config, invoke, pre + [batch] + post).logs, spanRef)
    ensures Settled(Run(config, invoke, pre + [batch] + post).state, spanRef)
  {
    EarlyBatchOfRun(config, invoke, pre, batch, post, spanRef);
    EarlyReferenceStays(config, invoke, pre + [batch], post, spanRef);
  }

  lemma EarlyBatchOfRun(config: Config, invoke: InvokeEvent, pre: seq<Step>, batch: Step, post: seq<Step>,
                        spanRef: SpanRef)
    requires config.tracingMode.OtelInstrumentation? && config.structuredLogs
    requires Never(pre, IsDone) && Never(pre, IsReport) && !Has(SpansIn(pre), CxEarlyInvocation)
    requires batch.OnSpans? && HasIds(FirstOf(SpansIn(pre + [batch]), CxEarlyInvocation, config.excludes), spanRef)
    requires Never(pre, IsInitStart) || !Never(pre, IsInitReport)
    requires FinalIds(Run(config, invoke, pre + [batch] + post).state, spanRef)
    ensures AllWith(Run(config, invoke, pre + [batch]).logs, spanRef)
    ensures Settled(Run(config, invoke, pre + [batch]).state, spanRef)
    ensures Run(config, invoke, pre + [batch]).state.initReported <==> !Never(pre, IsInitReport)
  {
    SlotOfRun(config, invoke, pre + [batch], CxEarlyInvocation);
    FinalIdsEarlier(config, invoke, pre + [batch], post, spanRef);
    DelayedExactlyWhen(config, invoke, pre);
    DelayedLogs.SilentWhileDelayed(config, invoke, pre);
    InitFlags(config, invoke, pre);
    RunOne(config, invoke, pre, batch);
    var r := Run(config, invoke, pre);
    EarlyBatch(config, r, batch, spanRef);
    StepInit(config, r.state, batch);
  }

  // ---------------------------------------------------------------------------
  // Accounting for the function spans of an invocation.

  lemma StepSpans(config: Config, s: InvocationState, step: Step)
    requires !IsDone(step)
    ensures DoStep(config, s, step).spans
         == if step.OnSpans? && ProducesSpans(config, s)
            then ForwardAll(s.tracing, AllSpans(step.spans), config.excludes)
            else []
  {}

  lemma Sampling(config: Config, invoke: InvokeEvent, steps: seq<Step>)
    ensures Run(config, invoke, steps).state.tracing.shouldProduceSpans == (config.sampleAll || invoke.sampled)
  {
    TracingOfRun(config, invoke, steps);
    CaptureKeepsSampling(Fresh(config, invoke), SpansIn(steps), config.excludes);
  }

  predicate Produces(config: Config, invoke: InvokeEvent) {
    (config.sampleAll || invoke.sampled) && config.tracingMode.OtelInstrumentation?
  }

  /** Until the runtime is done, spans that are not captured go out in order. */
  lemma {:induction false} SpansBeforeDone(config: Config, invoke: InvokeEvent, steps: seq<Step>)
    requires Never(steps, IsDone) && Produces(config, invoke)
    ensures Run(config, invoke, steps).spans == ForwardAll(Fresh(config, invoke), SpansIn(steps), config.excludes)
  {
    if steps != [] {
      var front, step := steps[..|steps| - 1], Last(steps);
      var r := Run(config, invoke, front);
      SpansBeforeDone(config, invoke, front);
      StepSpans(config, r.state, step);
      Sampling(config, invoke, front);
      if step.OnSpans? {
        TracingOfRun(config, invoke, front);
        CaptureBatch(Fresh(config, invoke), r.state.tracing, SpansIn(front), step.spans, config.excludes);
      } else {
        assert SpansIn(steps) == SpansIn(front);
      }
    }
  }

  lemma {:induction false} NoSpansLater(config: Config, invoke: InvokeEvent, pre: seq<Step>, post: seq<Step>)
    requires Never(post, IsSpans) && Never(post, IsDone)
    ensures Run(config, invoke, pre + post).spans == Run(config, invoke, pre).spans
  {
    if post == [] {
      assert pre + post == pre;
    } else {
      NoSpansLater(config, invoke, pre, post[..|post| - 1]);
      StepSpans(config, Run(config, invoke, pre + post[..|post| - 1]).state, Last(post));
      RunNext(config, invoke, pre, post);
    }
  }

  /** Every function span that arrived before the runtime was done goes out exactly once, except warmup spans
      and early spans whose final version was captured too. */
  lemma SpansAccountedFor(config: Config, invoke: InvokeEvent, pre: seq<Step>, done: Step, post: seq<Step>, n: nat)
    requires Produces(config, invoke)
    requires Never(pre, IsDone) && IsDone(done) && Never(post, IsSpans) && Never(post, IsDone)
    ensures Count(Run(config, invoke, pre + [done] + post).spans, n) + CountWarmups(SpansIn(pre), n)
            + CountSuperseded(Run(config, invoke, pre).state.tracing, n)
         == Count(SpansIn(pre), n)
  {
    var r := Run(config, invoke, pre);
    var t, xs := Fresh(config, invoke), SpansIn(pre);
    NoSpansLater(config, invoke, pre + [done], post);
    RunOne(config, invoke, pre, done);
    Sampling(config, invoke, pre);
    DoneSpans(config, r.state, done);
    SpansBeforeDone(config, invoke, pre);
    TracingOfRun(config, invoke, pre);
    CountAppend(r.spans, SpecialSpans(r.state.tracing, DoneOf(done.event)), n);
    EmissionAccounts(r.state.tracing, DoneOf(done.event), n);
    CapturingAccounts(t, xs, n, config.excludes);
  }

  /** Otherwise none goes out. */
  lemma {:induction false} NoSpansAtAll(config: Config, invoke: InvokeEvent, steps: seq<Step>)
    requires !Produces(config, invoke)
    ensures Run(config, invoke, steps).spans == []
  {
    if steps != [] {
      NoSpansAtAll(config, invoke, steps[..|steps| - 1]);
      Sampling(config, invoke, steps[..|steps| - 1]);
    }
  }
}
