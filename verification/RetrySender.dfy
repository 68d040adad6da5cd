/** The one-retry sender. A call takes the batch waiting for a retry, sends both concurrently, and may leave
    its own batch behind; the two locked regions of overlapping calls interleave freely
    (src/coralogix/coralogix_sender.rs). */
module RetrySender {
  import opened Sequences

  /** The errors of the OTLP client (src/coralogix/mod.rs). */
  datatype Error =
    | Unauthenticated
    | BadRequest
    | QuotaExceeded
    | PermissionDenied
    | Unavailable
    | UnexpectedResponse
    | Internal
  {
    predicate IsRetryable() {
      Unavailable? || UnexpectedResponse?
    }
  }

  /** None is success. */
  type Outcome = Option<Error>

  /** A batch, numbered in the order of the calls that brought it. */
  datatype Batch = Batch(id: nat, itemCount: nat)

  /** A call between its two locked regions. */
  datatype Call = Call(retry: Option<Batch>, own: Batch)

  /** How a batch ended. */
  datatype Fate =
    | Empty                // nothing to send
    | Delivered
    | Refused              // failed with an error that is not retryable
    | FailedAgain          // the retry failed
    | Displaced            // another batch took its place in the slot before it was retried

  /** Where a batch is: with its own call, in the slot, with the call that retries it, or nowhere any more. */
  datatype Place = WithOwnCall | Waiting | BeingRetriedBy(call: nat) | Ended(fate: Fate)

  /** The slot and the calls in progress; the other fields are bookkeeping. */
  datatype State = State(toRetry: Option<Batch>, calls: map<nat, Call>, next: nat, attempts: map<nat, nat>,
                         places: map<nat, Place>)

  const INITIAL := State(None, map[], 0, map[], map[])

  /** The first locked region, and the start of both sends. A send with no items attempts nothing. */
  function Begin(s: State, itemCount: nat): State {
    var own := Batch(s.next, itemCount);
    var attempts := s.attempts[s.next := if itemCount == 0 then 0 else 1];
    var places := s.places[s.next := WithOwnCall];
    match s.toRetry
    case None => State(None, s.calls[s.next := Call(None, own)], s.next + 1, attempts, places)
    case Some(b) =>
      State(None, s.calls[s.next := Call(s.toRetry, own)], s.next + 1,
            attempts[b.id := (if b.id in attempts then attempts[b.id] else 0) + 1],
            places[b.id := BeingRetriedBy(s.next)])
  }

  /** The second locked region, once both sends have come back: first the retry, */
  function FinishRetry(s: State, id: nat, retryOutcome: Outcome): State
    requires id in s.calls
  {
    match s.calls[id].retry
    case None => s
    case Some(b) =>
      s.(calls := s.calls[id := Call(None, s.calls[id].own)],
         places := s.places[b.id := Ended(if retryOutcome.None? then Delivered else FailedAgain)])
  }

  /** then the call's own batch. */
  function FinishOwn(s: State, id: nat, outcome: Outcome): State
    requires id in s.calls
  {
    var own := s.calls[id].own;
    var done := s.(calls := s.calls - {id});
    if own.itemCount == 0 then done.(places := s.places[id := Ended(Empty)])
    else if outcome.None? then done.(places := s.places[id := Ended(Delivered)])
    else if outcome.value.IsRetryable() then
      var displaced := if s.toRetry.Some? then s.places[s.toRetry.value.id := Ended(Displaced)] else s.places;
      done.(toRetry := Some(own), places := displaced[id := Waiting])
    else done.(places := s.places[id := Ended(Refused)])
  }

  function Finish(s: State, id: nat, retryOutcome: Outcome, outcome: Outcome): State
    requires id in s.calls
  {
    FinishOwn(FinishRetry(s, id, retryOutcome), id, outcome)
  }

  datatype Step = Started(itemCount: nat) | Finished(id: nat, retryOutcome: Outcome, outcome: Outcome)

  function Apply(s: State, step: Step): State {
    match step
    case Started(n) => Begin(s, n)
    case Finished(id, r, o) => if id in s.calls then Finish(s, id, r, o) else s
  }

  /** Any interleaving of calls. */
  function Run(steps: seq<Step>): State {
    if steps == [] then INITIAL else Apply(Run(steps[..|steps| - 1]), Last(steps))
  }

  // ---------------------------------------------------------------------------
  // The invariant.

  ghost predicate AttemptsFit(attempts: nat, place: Place) {
    match place
    case WithOwnCall => attempts <= 1
    case Waiting => attempts == 1
    case BeingRetriedBy(_) => attempts == 2
    case Ended(Empty) => attempts == 0
    case Ended(Delivered) => attempts == 1 || attempts == 2
    case Ended(Refused) => attempts == 1
    case Ended(FailedAgain) => attempts == 2
    case Ended(Displaced) => attempts == 1
  }

  ghost predicate InPlace(s: State, id: nat, place: Place) {
    match place
    case WithOwnCall => id in s.calls
    case Waiting => s.toRetry.Some? && s.toRetry.value.id == id
    case BeingRetriedBy(c) => c in s.calls && s.calls[c].retry.Some? && s.calls[c].retry.value.id == id
    case Ended(_) => true
  }

  ghost predicate BatchOk(s: State, id: nat)
    requires id in s.places
  {
    id in s.attempts && AttemptsFit(s.attempts[id], s.places[id]) && InPlace(s, id, s.places[id])
  }

  ghost predicate CallOk(s: State, c: nat)
    requires c in s.calls
  {
    var call := s.calls[c];
    && call.own.id == c && Located(s, c, WithOwnCall)
    && c in s.attempts && s.attempts[c] == (if call.own.itemCount == 0 then 0 else 1)
    && (call.retry.Some? ==> Located(s, call.retry.value.id, BeingRetriedBy(c)))
  }

  ghost predicate Located(s: State, id: nat, place: Place) {
    id in s.places && s.places[id] == place
  }

  /** Every batch is in exactly one place and was attempted as often as that place allows. */
  ghost predicate Invariant(s: State) {
    && (forall id: nat :: id in s.places <==> id < s.next)
    && (forall id :: id in s.places ==> BatchOk(s, id))
    && (forall c :: c in s.calls ==> CallOk(s, c))
    && (s.toRetry.Some? ==> Located(s, s.toRetry.value.id, Waiting))
  }

  lemma BeginKeeps(s: State, itemCount: nat)
    requires Invariant(s)
    ensures Invariant(Begin(s, itemCount))
  {
    var s' := Begin(s, itemCount);
    forall id | id in s'.places ensures BatchOk(s', id) {
      assert id < s.next ==> BatchOk(s, id);
    }
    forall c | c in s'.calls ensures CallOk(s', c) {
      assert c in s.calls ==> CallOk(s, c) && c < s.next;
    }
  }

  lemma FinishRetryKeeps(s: State, id: nat, retryOutcome: Outcome)
    requires Invariant(s) && id in s.calls
    ensures Invariant(FinishRetry(s, id, retryOutcome)) && FinishRetry(s, id, retryOutcome).calls[id].retry.None?
  {
    var s' := FinishRetry(s, id, retryOutcome);
    assert CallOk(s, id);
    forall b | b in s'.places ensures BatchOk(s', b) {
      assert BatchOk(s, b);
    }
    forall c | c in s'.calls ensures CallOk(s', c) {
      assert CallOk(s, c);
    }
  }

  lemma FinishOwnKeeps(s: State, id: nat, outcome: Outcome)
    requires Invariant(s) && id in s.calls && s.calls[id].retry.None?
    ensures Invariant(FinishOwn(s, id, outcome))
  {
    var s' := FinishOwn(s, id, outcome);
    assert CallOk(s, id) && BatchOk(s, id);
    forall b | b in s'.places ensures BatchOk(s', b) {
      FinishOwnBatch(s, id, outcome, b);
    }
    forall c | c in s'.calls ensures CallOk(s', c) {
      assert CallOk(s, c);
    }
  }

  lemma FinishOwnBatch(s: State, id: nat, outcome: Outcome, b: nat)
    requires Invariant(s) && id in s.calls && s.calls[id].retry.None? && b in s.places
    ensures b in FinishOwn(s, id, outcome).places && BatchOk(FinishOwn(s, id, outcome), b)
  {
    assert CallOk(s, id) && BatchOk(s, id) && BatchOk(s, b);
  }

  lemma {:induction false} RunInvariant(steps: seq<Step>)
    ensures Invariant(Run(steps))
  {
    if steps != [] {
      RunInvariant(steps[..|steps| - 1]);
      var s := Run(steps[..|steps| - 1]);
      match Last(steps) {
        case Started(n) => BeginKeeps(s, n);
        case Finished(id, r, o) =>
          if id in s.calls {
            FinishRetryKeeps(s, id, r);
            FinishOwnKeeps(FinishRetry(s, id, r), id, o);
          }
      }
    }
  }

  // ---------------------------------------------------------------------------

  /** However calls overlap, no batch is attempted more than twice, and the slot holds only a batch that was
      attempted exactly once. */
  lemma AtMostOneRetry(steps: seq<Step>)
    ensures var s := Run(steps);
            && (forall id: nat :: id < s.next ==> id in s.attempts && s.attempts[id] <= 2)
            && (s.toRetry.Some? ==> s.toRetry.value.id in s.attempts && s.attempts[s.toRetry.value.id] == 1)
  {
    RunInvariant(steps);
    FewAttempts(Run(steps));
  }

  lemma FewAttempts(s: State)
    requires Invariant(s)
    ensures forall id: nat :: id < s.next ==> id in s.attempts && s.attempts[id] <= 2
    ensures s.toRetry.Some? ==> s.toRetry.value.id in s.attempts && s.attempts[s.toRetry.value.id] == 1
  {
    forall id: nat | id < s.next ensures id in s.attempts && s.attempts[id] <= 2 {
      assert BatchOk(s, id);
    }
    if s.toRetry.Some? {
      assert BatchOk(s, s.toRetry.value.id);
    }
  }

  /** No call starts before the previous one has finished. */
  ghost predicate OneAtATime(steps: seq<Step>) {
    forall n :: 0 <= n < |steps| && steps[n].Started? ==> Run(steps[..n]).calls == map[]
  }

  ghost predicate OnlyLatest(s: State) {
    && (forall id :: id in s.calls ==> id + 1 == s.next)
    && (s.toRetry.Some? ==> s.calls == map[] && s.toRetry.value.id + 1 == s.next)
    && (forall id :: id in s.places ==> s.places[id] != Ended(Displaced))
  }

  lemma FinishOnlyLatest(s: State, id: nat, retryOutcome: Outcome, outcome: Outcome)
    requires Invariant(s) && OnlyLatest(s) && id in s.calls
    ensures OnlyLatest(Finish(s, id, retryOutcome, outcome))
  {
    var t := FinishRetry(s, id, retryOutcome);
    FinishRetryKeeps(s, id, retryOutcome);
    assert CallOk(t, id);
    assert forall c :: c in t.calls ==> c == id;
    assert t.calls - {id} == map[];
  }

  lemma {:induction false} NothingDisplaced(steps: seq<Step>)
    requires OneAtATime(steps)
    ensures OnlyLatest(Run(steps))
  {
    if steps != [] {
      var front := steps[..|steps| - 1];
      forall n | 0 <= n < |front| && front[n].Started? ensures Run(front[..n]).calls == map[] {
        assert front[..n] == steps[..n] && steps[n] == front[n];
      }
      NothingDisplaced(front);
      RunInvariant(front);
      if Last(steps).Finished? && Last(steps).id in Run(front).calls {
        FinishOnlyLatest(Run(front), Last(steps).id, Last(steps).retryOutcome, Last(steps).outcome);
      }
    }
  }

  /** When calls do not overlap, every batch that is not in the call in progress was empty, was delivered,
      was refused, failed twice, or is the latest batch, waiting in the slot. */
  lemma EveryBatchAccountedFor(steps: seq<Step>, id: nat)
    requires OneAtATime(steps) && id < Run(steps).next && Run(steps).calls == map[]
    ensures var s := Run(steps);
            && id in s.places && id in s.attempts && AttemptsFit(s.attempts[id], s.places[id])
            && (s.places[id] == Waiting ==> s.toRetry.Some? && s.toRetry.value.id == id && id + 1 == s.next)
            && (s.places[id] != Waiting ==> s.places[id].Ended? && s.places[id].fate != Displaced)
  {
    NothingDisplaced(steps);
    RunInvariant(steps);
    assert BatchOk(Run(steps), id);
  }

  /** The errors after which another attempt makes sense. */
  predicate MayPass(outcome: Outcome) {
    outcome == Some(Unavailable) || outcome == Some(UnexpectedResponse)
  }

  /** What comes back from the send of a call's own batch decides how it ends: it goes into the slot exactly when it
      failed in a way that may pass. */
  ghost predicate OwnEndsRight(s: State, id: nat, outcome: Outcome, s': State)
    requires id in s.calls
  {
    var own := s.calls[id].own;
    && id !in s'.calls && id in s'.places
    && (s'.places[id] == Ended(Empty) <==> own.itemCount == 0)
    && (s'.places[id] == Ended(Delivered) <==> own.itemCount > 0 && outcome.None?)
    && (s'.places[id] == Waiting <==> own.itemCount > 0 && MayPass(outcome))
    && (s'.places[id] == Ended(Refused) <==> own.itemCount > 0 && outcome.Some? && !MayPass(outcome))
    && s'.toRetry == if own.itemCount > 0 && MayPass(outcome) then Some(own) else s.toRetry
  }

  /** A retried batch is delivered or has failed for good. */
  ghost predicate RetryEndsRight(s: State, id: nat, retryOutcome: Outcome, s': State)
    requires id in s.calls
  {
    s.calls[id].retry.Some? ==>
      Located(s', s.calls[id].retry.value.id, Ended(if retryOutcome.None? then Delivered else FailedAgain))
  }

  lemma OwnEnds(s: State, id: nat, outcome: Outcome)
    requires Invariant(s) && id in s.calls
    ensures OwnEndsRight(s, id, outcome, FinishOwn(s, id, outcome))
    ensures forall b :: b in s.places && b != id && s.places[b] != Waiting ==>
              Located(FinishOwn(s, id, outcome), b, s.places[b])
  {
    assert CallOk(s, id);
  }

  lemma RetryEnds(s: State, id: nat, retryOutcome: Outcome)
    requires Invariant(s) && id in s.calls
    ensures RetryEndsRight(s, id, retryOutcome, FinishRetry(s, id, retryOutcome))
    ensures s.calls[id].retry.Some? ==> s.calls[id].retry.value.id != id
  {
    assert CallOk(s, id);
  }

  lemma CallEnds(s: State, id: nat, retryOutcome: Outcome, outcome: Outcome)
    requires Invariant(s) && id in s.calls
    ensures OwnEndsRight(s, id, outcome, Finish(s, id, retryOutcome, outcome))
    ensures RetryEndsRight(s, id, retryOutcome, Finish(s, id, retryOutcome, outcome))
  {
    RetryEnds(s, id, retryOutcome);
    FinishRetryKeeps(s, id, retryOutcome);
    OwnEnds(FinishRetry(s, id, retryOutcome), id, outcome);
  }

  /** Whatever other calls are going on, the outcomes of a call's two sends decide how its batches end, and what is in
      the slot then goes along with the next call, if that is the next thing to happen. */
  lemma OutcomeDecides(steps: seq<Step>, id: nat, retryOutcome: Outcome, outcome: Outcome, itemCount: nat)
    requires id in Run(steps).calls
    ensures var s, s' := Run(steps), Run(steps + [Finished(id, retryOutcome, outcome)]);
            && OwnEndsRight(s, id, outcome, s') && RetryEndsRight(s, id, retryOutcome, s')
            && var t := Run(steps + [Finished(id, retryOutcome, outcome)] + [Started(itemCount)]);
               t.toRetry.None? && s.next in t.calls && t.calls[s.next] == Call(s'.toRetry, Batch(s.next, itemCount))
  {
    RunInvariant(steps);
    RunNext(steps, Finished(id, retryOutcome, outcome));
    CallEnds(Run(steps), id, retryOutcome, outcome);
    RunNext(steps + [Finished(id, retryOutcome, outcome)], Started(itemCount));
    NextTakesAlong(Run(steps), id, retryOutcome, outcome, itemCount);
  }

  lemma NextTakesAlong(s: State, id: nat, retryOutcome: Outcome, outcome: Outcome, itemCount: nat)
    requires id in s.calls
    ensures var s' := Finish(s, id, retryOutcome, outcome);
            var t := Begin(s', itemCount);
            t.toRetry.None? && s.next in t.calls && t.calls[s.next] == Call(s'.toRetry, Batch(s.next, itemCount))
  {}

  lemma RunNext(steps: seq<Step>, step: Step)
    ensures Run(steps + [step]) == Apply(Run(steps), step)
  {
    assert (steps + [step])[..|steps|] == steps;
  }

  /** The batch was in the slot and has lost its place to another one. */
  ghost predicate LosesPlace(s: State, s': State, b: nat) {
    Located(s', b, Ended(Displaced)) && b in s.places && s.places[b] != Ended(Displaced)
  }

  lemma OwnDisplaces(s: State, id: nat, outcome: Outcome, b: nat)
    requires Invariant(s) && id in s.calls
    ensures LosesPlace(s, FinishOwn(s, id, outcome), b)
       <==> s.toRetry.Some? && b == s.toRetry.value.id && MayPass(outcome) && s.calls[id].own.itemCount > 0
  {
    assert CallOk(s, id);
  }

  lemma RetryDisplacesNone(s: State, id: nat, retryOutcome: Outcome, b: nat)
    requires Invariant(s) && id in s.calls
    ensures Located(FinishRetry(s, id, retryOutcome), b, Ended(Displaced)) <==> Located(s, b, Ended(Displaced))
    ensures b in FinishRetry(s, id, retryOutcome).places <==> b in s.places
    ensures FinishRetry(s, id, retryOutcome).toRetry == s.toRetry
    ensures FinishRetry(s, id, retryOutcome).calls[id].own == s.calls[id].own
  {
    assert CallOk(s, id);
  }

  /** A batch is lost to another one exactly when a retryable failure comes back while it is in the slot. */
  lemma DisplacedExactlyWhen(steps: seq<Step>, id: nat, retryOutcome: Outcome, outcome: Outcome, b: nat)
    requires id in Run(steps).calls
    ensures var s, s' := Run(steps), Run(steps + [Finished(id, retryOutcome, outcome)]);
            LosesPlace(s, s', b)
            <==> s.toRetry.Some? && b == s.toRetry.value.id && MayPass(outcome) && s.calls[id].own.itemCount > 0
  {
    RunInvariant(steps);
    RunNext(steps, Finished(id, retryOutcome, outcome));
    FinishRetryKeeps(Run(steps), id, retryOutcome);
    RetryDisplacesNone(Run(steps), id, retryOutcome, b);
    OwnDisplaces(FinishRetry(Run(steps), id, retryOutcome), id, outcome, b);
  }

  /** Overlapping calls can bring that about. */
  lemma OverlapMayDisplace() returns (steps: seq<Step>)
    ensures 0 in Run(steps).places && Run(steps).places[0] == Ended(Displaced)
  {
    var a, b := Started(1), Started(1);
    var c, d := Finished(0, None, Some(Unavailable)), Finished(1, None, Some(Unavailable));
    steps := [a, b, c, d];
    assert steps[..3] == [a, b, c] && [a, b, c][..2] == [a, b] && [a, b][..1] == [a] && [a][..0] == [];
    assert Run([a]) == Begin(INITIAL, 1);
    assert Run([a, b]) == Begin(Run([a]), 1);
    assert Run([a, b, c]).toRetry == Some(Batch(0, 1));
  }

  // ---------------------------------------------------------------------------
  // The sender itself.

  class OtlpPillarTelemetrySender {
    var toRetry: Option<Batch>
    ghost var calls: map<nat, Call>
    var next: nat
    ghost var attempts: map<nat, nat>
    ghost var places: map<nat, Place>

    ghost function View(): State
      reads this
    {
      State(toRetry, calls, next, attempts, places)
    }

    constructor ()
      ensures View() == INITIAL
    {
      toRetry, calls, next, attempts, places := None, map[], 0, map[], map[];
    }

    /** The first locked region: takes what is to be retried along. */
    method BeginCall(itemCount: nat) returns (call: Call)
      modifies this
      ensures View() == Begin(old(View()), itemCount)
      ensures call == Call(old(toRetry), Batch(old(next), itemCount))
    {
      call := Call(toRetry, Batch(next, itemCount));
      ghost var after := Begin(View(), itemCount);
      toRetry := None;
      next := next + 1;
      calls, attempts, places := after.calls, after.attempts, after.places;
    }

    /** The second locked region. */
    method FinishCall(call: Call, retryOutcome: Outcome, outcome: Outcome)
      requires call.own.id in calls && calls[call.own.id] == call
      modifies this
      ensures View() == Finish(old(View()), call.own.id, retryOutcome, outcome)
    {
      ghost var after := Finish(View(), call.own.id, retryOutcome, outcome);
      if call.own.itemCount > 0 && outcome.Some? && outcome.value.IsRetryable() {
        toRetry := Some(call.own);
      }
      calls, attempts, places := after.calls, after.attempts, after.places;
    }
  }
}
