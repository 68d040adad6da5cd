/** From the inputs of the service to the outputs of an invocation: what the merge gives an invocation is what
    the processor needs for its guarantees (src/telemetry/telemetry_service.rs,
    src/telemetry/processor/telemetry_processor.rs). */
module InvocationRuns {
  import opened Sequences
  import opened Telemetry
  import opened SpanCapture
  import opened InvocationProcessing
  import opened Correlation
  import EventMerge
  import SpanRouting

  /** What the merge gave invocation j, in order; the supply of random ids is indexed by position. */
  function StepsOn(trace: seq<EventMerge.Action>, j: nat, ids: nat -> Bytes): seq<Step> {
    if trace == [] then []
    else
      StepsOn(trace[..|trace| - 1], j, ids)
      + match Last(trace)
        case Handled(e, OnInvocation(i)) => if i == j then [OnEvent(e, ids(|trace| - 1))] else []
        case Handled(_, Degraded(_, _)) => []
        case HandledSpans(i, rs) => if i == j then [OnSpans(rs)] else []
  }

  ghost predicate NoSpansAfter(steps: seq<Step>) {
    forall i, k :: 0 <= i < k < |steps| && IsDone(steps[i]) ==> !IsSpans(steps[k])
  }

  lemma DoneOnNext(front: seq<EventMerge.Action>, a: EventMerge.Action, j: nat)
    ensures SpanRouting.DoneOn(front + [a], j)
       <==> SpanRouting.DoneOn(front, j)
            || (a.Handled? && a.how == EventMerge.OnInvocation(j) && a.event.record.PlatformRuntimeDone?)
  {
    var all := front + [a];
    assert a in all && forall x :: x in front ==> x in all;
    assert forall x :: x in all ==> x in front || x == a;
  }

  lemma {:induction false} DoneOnSteps(trace: seq<EventMerge.Action>, j: nat, ids: nat -> Bytes)
    requires SpanRouting.NoSpansAfterDone(trace)
    ensures SpanRouting.DoneOn(trace, j) <==> !Never(StepsOn(trace, j, ids), IsDone)
    ensures NoSpansAfter(StepsOn(trace, j, ids))
  {
    if trace != [] {
      var front, a := trace[..|trace| - 1], Last(trace);
      forall b | 0 <= b < |front| && front[b].HandledSpans? ensures !SpanRouting.DoneOn(front[..b], front[b].ordinal) {
        assert front[..b] == trace[..b] && trace[b] == front[b];
      }
      DoneOnSteps(front, j, ids);
      assert trace == front + [a];
      DoneOnNext(front, a, j);
      var steps, before := StepsOn(trace, j, ids), StepsOn(front, j, ids);
      if steps != before {
        assert steps == before + [Last(steps)];
        NeverInFront(steps, IsDone);
        assert steps[..|steps| - 1] == before;
      }
    }
  }

  /** The merge never gives an invocation spans after the end of its runtime. */
  lemma NoSpansAfterRuntimeDone(inputs: seq<EventMerge.Input>, j: nat, ids: nat -> Bytes)
    ensures NoSpansAfter(StepsOn(EventMerge.Run(inputs).trace, j, ids))
  {
    SpanRouting.SpanFifo(inputs);
    DoneOnSteps(EventMerge.Run(inputs).trace, j, ids);
  }

  lemma {:induction false} DoneFlag(config: Config, invoke: InvokeEvent, steps: seq<Step>)
    ensures Run(config, invoke, steps).state.runtimeDone.Some? <==> !Never(steps, IsDone)
  {
    if steps != [] {
      var front := steps[..|steps| - 1];
      NeverInFront(steps, IsDone);
      StepDone(config, Run(config, invoke, front).state, Last(steps));
      DoneFlag(config, invoke, front);
    }
  }

  lemma StepDone(config: Config, s: InvocationState, step: Step)
    ensures NextState(config, s, step).runtimeDone.Some? <==> s.runtimeDone.Some? || IsDone(step)
  {
    if step.OnEvent? {
      match step.event.record
      case PlatformRuntimeDone(_, _, _) =>
      case _ =>
    }
  }

  /** The flag by which the merge routes spans is the one that the processor sets. */
  lemma RoutingFlagAgrees(config: Config, inputs: seq<EventMerge.Input>, ids: nat -> Bytes)
    requires EventMerge.Run(inputs).invocation.Some?
    ensures var s := EventMerge.Run(inputs);
            var inv := s.invocation.value;
            inv.runtimeDone <==> Run(config, inv.invoke, StepsOn(s.trace, inv.ordinal, ids)).state.runtimeDone.Some?
  {
    var s := EventMerge.Run(inputs);
    var inv := s.invocation.value;
    SpanRouting.SpanFifo(inputs);
    DoneOnSteps(s.trace, inv.ordinal, ids);
    DoneFlag(config, inv.invoke, StepsOn(s.trace, inv.ordinal, ids));
  }

  lemma Split(steps: seq<Step>, i: nat)
    requires i < |steps| && NoSpansAfter(steps) && IsDone(steps[i])
    ensures steps == steps[..i] + [steps[i]] + steps[i + 1..] == steps[..i] + steps[i..]
    ensures Never(steps[i..], IsSpans) && Never(steps[i + 1..], IsSpans)
  {}

  lemma {:induction false} SpansInPrefix(pre: seq<Step>, post: seq<Step>)
    requires Never(post, IsSpans)
    ensures SpansIn(pre + post) == SpansIn(pre)
  {
    if post == [] {
      assert pre + post == pre;
    } else {
      assert (pre + post)[..|pre + post| - 1] == pre + post[..|post| - 1];
      SpansInPrefix(pre, post[..|post| - 1]);
    }
  }

  /** For whatever arrives at the service, and however it is interleaved and batched: when one runtime-done event is
      processed on an invocation that produces spans, each of its spans goes out exactly once, except warmup spans
      and early spans whose final version was captured too. */
  lemma InvocationSpansAccountedFor(config: Config, invoke: InvokeEvent, inputs: seq<EventMerge.Input>, j: nat,
                                    ids: nat -> Bytes, i: nat, n: nat)
    requires Produces(config, invoke)
    requires var steps := StepsOn(EventMerge.Run(inputs).trace, j, ids);
             i < |steps| && IsDone(steps[i]) && Never(steps[..i], IsDone) && Never(steps[i + 1..], IsDone)
    ensures var steps := StepsOn(EventMerge.Run(inputs).trace, j, ids);
            var r := Run(config, invoke, steps);
            Count(r.spans, n) + CountWarmups(SpansIn(steps), n) + CountSuperseded(r.state.tracing, n)
            == Count(SpansIn(steps), n)
  {
    var steps := StepsOn(EventMerge.Run(inputs).trace, j, ids);
    NoSpansAfterRuntimeDone(inputs, j, ids);
    Split(steps, i);
    SpansInPrefix(steps[..i], steps[i..]);
    SpansAccountedFor(config, invoke, steps[..i], steps[i], steps[i + 1..], n);
    SameSlots(config, invoke, steps, steps[..i]);
  }

  lemma SameSlots(config: Config, invoke: InvokeEvent, a: seq<Step>, b: seq<Step>)
    requires SpansIn(a) == SpansIn(b)
    ensures forall n ::
              CountSuperseded(Run(config, invoke, a).state.tracing, n)
              == CountSuperseded(Run(config, invoke, b).state.tracing, n)
  {
    TracingOfRun(config, invoke, a);
    TracingOfRun(config, invoke, b);
  }

  /** And when no early invocation span and no report comes before the runtime-done event, nor an init event
      after it that would reopen init, all the logs of the invocation refer to one span. */
  lemma InvocationLogsCorrelated(config: Config, invoke: InvokeEvent, inputs: seq<EventMerge.Input>, j: nat,
                                 ids: nat -> Bytes, i: nat)
    requires config.tracingMode.OtelInstrumentation?
    requires var steps := StepsOn(EventMerge.Run(inputs).trace, j, ids);
             && i < |steps| && IsDone(steps[i]) && Never(steps[..i], IsDone) && Never(steps[..i], IsReport)
             && !Has(SpansIn(steps), CxEarlyInvocation)
             && (|| !Never(steps[..i], IsInitReport)
                 || (Never(steps[i..], IsInitStart) && Never(steps[i..], IsInitReport)))
    ensures var steps := StepsOn(EventMerge.Run(inputs).trace, j, ids);
            AllWith(Run(config, invoke, steps).logs, Run(config, invoke, steps).state.CurrentSpanRef())
  {
    var steps := StepsOn(EventMerge.Run(inputs).trace, j, ids);
    NoSpansAfterRuntimeDone(inputs, j, ids);
    Split(steps, i);
    SpansInPrefix(steps[..i], steps[i..]);
    OneReferencePerInvocation(config, invoke, steps[..i], steps[i..]);
  }

  lemma {:induction false} SpansGrow(config: Config, invoke: InvokeEvent, pre: seq<Step>, post: seq<Step>)
    ensures Run(config, invoke, pre).spans <= Run(config, invoke, pre + post).spans
  {
    if post == [] {
      assert pre + post == pre;
    } else {
      SpansGrow(config, invoke, pre, post[..|post| - 1]);
      RunNext(config, invoke, pre, post);
    }
  }

  /** The invocation span that goes out when the runtime is done after `pre` is among the outputs. */
  lemma InvocationSpanIsOutput(config: Config, invoke: InvokeEvent, pre: seq<Step>, done: Step, post: seq<Step>)
    requires IsDone(done) && Produces(config, invoke)
    requires Has(SpansIn(pre), CxInvocation) || Has(SpansIn(pre), GenericInvocation)
    requires Never(pre, IsInitStart) || !Never(pre, IsInitReport)
    ensures var s := Run(config, invoke, pre).state;
            var out := InvocationSpanOut(s.tracing, DoneOf(done.event));
            && out != [] && out[0] in Run(config, invoke, pre + [done] + post).spans
            && s.CurrentSpanRef() == SpanRef(out[0].span.traceId, out[0].span.spanId)
  {
    var t := Run(config, invoke, pre).state.tracing;
    CapturedInvocationSpan(config, invoke, pre);
    Sampling(config, invoke, pre);
    ReferenceIsTheInvocationSpan(config, invoke, pre, done);
    FirstAmong(Run(config, invoke, pre).spans, TriggerSpan(t, DoneOf(done.event)),
               InvocationSpanOut(t, DoneOf(done.event)),
               GenericLeftOver(t));
    SpansGrow(config, invoke, pre + [done], post);
  }

  lemma CapturedInvocationSpan(config: Config, invoke: InvokeEvent, steps: seq<Step>)
    requires Has(SpansIn(steps), CxInvocation) || Has(SpansIn(steps), GenericInvocation)
    ensures Run(config, invoke, steps).state.tracing.InvocationSpan().Some?
  {
    if Has(SpansIn(steps), CxInvocation) {
      SlotOfRun(config, invoke, steps, CxInvocation);
      SlotGivesSpan(Run(config, invoke, steps).state.tracing, CxInvocation);
    } else {
      SlotOfRun(config, invoke, steps, GenericInvocation);
      SlotGivesSpan(Run(config, invoke, steps).state.tracing, GenericInvocation);
    }
  }

  lemma SlotGivesSpan(t: TracingState, c: Category)
    requires t.Slot(c).Some? && (c.CxInvocation? || c.GenericInvocation?)
    ensures t.InvocationSpan().Some?
  {}

  lemma FirstAmong<T>(a: seq<T>, b: seq<T>, c: seq<T>, d: seq<T>)
    requires c != []
    ensures c[0] in a + (b + c + d)
  {
    assert (a + (b + c + d))[|a| + |b|] == c[0];
  }

  /** No report came before the runtime-done event in step i, which was the first, and init was over by then, or stays
      as it is. */
  ghost predicate EndsAt(steps: seq<Step>, i: nat) {
    && i < |steps| && IsDone(steps[i]) && Never(steps[..i], IsDone) && Never(steps[..i], IsReport)
    && (Never(steps[..i], IsInitReport) ==> Never(steps, IsInitStart) && Never(steps, IsInitReport))
  }

  ghost predicate SpanArrived(steps: seq<Step>) {
    Has(SpansIn(steps), CxInvocation) || Has(SpansIn(steps), GenericInvocation)
  }

  lemma LogsReferToTheSpan(config: Config, invoke: InvokeEvent, steps: seq<Step>, i: nat)
    requires Produces(config, invoke) && NoSpansAfter(steps) && EndsAt(steps, i)
    requires !Has(SpansIn(steps), CxEarlyInvocation) && SpanArrived(steps)
    ensures var out := InvocationSpanOut(Run(config, invoke, steps[..i]).state.tracing, DoneOf(steps[i].event));
            && out != [] && out[0] in Run(config, invoke, steps).spans
            && AllWith(Run(config, invoke, steps).logs, SpanRef(out[0].span.traceId, out[0].span.spanId))
  {
    Split(steps, i);
    SpansInPrefix(steps[..i], steps[i..]);
    OneReferencePerInvocation(config, invoke, steps[..i], steps[i..]);
    InvocationSpanIsOutput(config, invoke, steps[..i], steps[i], steps[i + 1..]);
  }

  /** And when an invocation span arrived, spans are produced and init is over, it is that span that goes out. */
  lemma InvocationLogsReferToItsSpan(config: Config, invoke: InvokeEvent, inputs: seq<EventMerge.Input>, j: nat,
                                     ids: nat -> Bytes, i: nat)
    requires Produces(config, invoke)
    requires var steps := StepsOn(EventMerge.Run(inputs).trace, j, ids);
             EndsAt(steps, i) && !Has(SpansIn(steps), CxEarlyInvocation) && SpanArrived(steps)
    ensures var steps := StepsOn(EventMerge.Run(inputs).trace, j, ids);
            var r := Run(config, invoke, steps);
            var out := InvocationSpanOut(Run(config, invoke, steps[..i]).state.tracing, DoneOf(steps[i].event));
            && out != [] && out[0] in r.spans
            && AllWith(r.logs, SpanRef(out[0].span.traceId, out[0].span.spanId))
  {
    NoSpansAfterRuntimeDone(inputs, j, ids);
    LogsReferToTheSpan(config, invoke, StepsOn(EventMerge.Run(inputs).trace, j, ids), i);
  }

  /** The first early invocation span arrives in step h, with the ids of the reference, before the runtime is done and
      after init is over, and its final version, if it arrives, has the same ids. */
  ghost predicate EarlyAt(config: Config, steps: seq<Step>, h: nat, spanRef: SpanRef) {
    && h < |steps| && Never(steps[..h], IsDone) && Never(steps[..h], IsReport)
    && !Has(SpansIn(steps[..h]), CxEarlyInvocation)
    && steps[h].OnSpans? && HasIds(FirstOf(SpansIn(steps[..h + 1]), CxEarlyInvocation, config.excludes), spanRef)
    && (Never(steps[..h], IsInitReport) ==> Never(steps, IsInitStart) && Never(steps, IsInitReport))
    && (Has(SpansIn(steps), CxInvocation) ==> HasIds(FirstOf(SpansIn(steps), CxInvocation, config.excludes), spanRef))
  }

  lemma SplitAround(steps: seq<Step>, h: nat)
    requires h < |steps|
    ensures steps == steps[..h] + [steps[h]] + steps[h + 1..] && steps[..h + 1] == steps[..h] + [steps[h]]
    ensures Never(steps, IsInitStart) ==> Never(steps[h + 1..], IsInitStart)
    ensures Never(steps, IsInitReport) ==> Never(steps[h + 1..], IsInitReport)
    ensures Never(steps, IsInitStart) ==> Never(steps[..h], IsInitStart)
  {}

  lemma FinalIdsOfRun(config: Config, invoke: InvokeEvent, steps: seq<Step>, spanRef: SpanRef)
    requires Has(SpansIn(steps), CxInvocation) ==>
               HasIds(FirstOf(SpansIn(steps), CxInvocation, config.excludes), spanRef)
    ensures FinalIds(Run(config, invoke, steps).state, spanRef)
  {
    SlotOfRun(config, invoke, steps, CxInvocation);
  }

  lemma LogsReferToEarlySpan(config: Config, invoke: InvokeEvent, steps: seq<Step>, h: nat, spanRef: SpanRef)
    requires config.tracingMode.OtelInstrumentation? && config.structuredLogs && EarlyAt(config, steps, h, spanRef)
    ensures AllWith(Run(config, invoke, steps).logs, spanRef) && Settled(Run(config, invoke, steps).state, spanRef)
  {
    SplitAround(steps, h);
    FinalIdsOfRun(config, invoke, steps, spanRef);
    EarlyReferencePerInvocation(config, invoke, steps[..h], steps[h], steps[h + 1..], spanRef);
  }

  /** With such an early invocation span, all the logs refer to the ids of the captured invocation span. */
  lemma InvocationLogsReferToEarlySpan(config: Config, invoke: InvokeEvent, inputs: seq<EventMerge.Input>, j: nat,
                                       ids: nat -> Bytes, h: nat, spanRef: SpanRef)
    requires config.tracingMode.OtelInstrumentation? && config.structuredLogs
    requires EarlyAt(config, StepsOn(EventMerge.Run(inputs).trace, j, ids), h, spanRef)
    ensures var r := Run(config, invoke, StepsOn(EventMerge.Run(inputs).trace, j, ids));
            && AllWith(r.logs, spanRef) && r.state.tracing.InvocationSpan().Some?
            && spanRef == SpanRef(r.state.tracing.InvocationSpan().value.traceId,
                                  r.state.tracing.InvocationSpan().value.spanId)
  {
    var steps := StepsOn(EventMerge.Run(inputs).trace, j, ids);
    LogsReferToEarlySpan(config, invoke, steps, h, spanRef);
    SettledSpan(Run(config, invoke, steps).state, spanRef);
  }

  lemma SettledSpan(s: InvocationState, spanRef: SpanRef)
    requires Settled(s, spanRef)
    ensures var span := s.tracing.InvocationSpan();
            span.Some? && spanRef == SpanRef(span.value.traceId, span.value.spanId)
  {}
}
