/** Bookkeeping over the merge: what came in for invocations and degraded chunks, what went out, and what invocations
    hold back (src/telemetry/telemetry_service.rs). */
module Ledgers {
  import opened Sequences
  import opened Telemetry
  import opened EventMerge
  import Confluence

  /** What has gone out, what has come in, what each invocation holds back, and whether it has dropped anything. */
  datatype Books<T> = Books(out: seq<T>, came: seq<T>, held: nat -> seq<T>, dropped: nat -> bool)

  /** Items came in for invocation j, and it let some go, and may have dropped some. */
  ghost predicate Moves<T>(b: Books<T>, b': Books<T>, j: nat) {
    && (forall i: nat :: i != j ==> b'.held(i) == b.held(i) && b'.dropped(i) == b.dropped(i))
    && b.came <= b'.came && b.out <= b'.out
    && (b.dropped(j) ==> b'.dropped(j))
    && FlowsThrough(b'.out[|b.out|..], b'.held(j), b.held(j), b'.came[|b.came|..], b'.dropped(j), b.dropped(j))
  }

  /** What goes out and is held afterwards is what was held before and has come in, or less if something is dropped. */
  ghost predicate FlowsThrough<T>(out: seq<T>, after: seq<T>, before: seq<T>, came: seq<T>, dropped: bool,
                                  already: bool)
  {
    && |out| + |after| <= |before| + |came|
    && (!dropped ==> out + after == before + came)
    && (dropped && !already ==> |out| + |after| < |before| + |came|)
  }

  /** Items came in and went straight out. */
  ghost predicate Bypasses<T>(b: Books<T>, b': Books<T>) {
    && (forall i: nat :: b'.held(i) == b.held(i) && b'.dropped(i) == b.dropped(i))
    && b.came <= b'.came && b.out <= b'.out
    && b'.out[|b.out|..] == b'.came[|b.came|..]
  }

  /** None of n invocations has dropped anything, or holds anything back, except perhaps the last if it is active. */
  ghost predicate Unbroken<T>(b: Books<T>, n: nat, active: bool) {
    forall j: nat :: j < n ==> !b.dropped(j) && (!(active && j + 1 == n) ==> b.held(j) == [])
  }

  function HeldOpen<T>(b: Books<T>, n: nat, active: bool): seq<T> {
    if active && n > 0 then b.held(n - 1) else []
  }

  /** As long as nothing is dropped and no closed invocation holds anything back, what went out and what the open one
      holds back is what came in, in order; otherwise something is missing. */
  ghost predicate Account<T>(b: Books<T>, held: seq<T>, clean: bool) {
    if clean then b.out + held == b.came else |b.out| + |held| < |b.came|
  }

  ghost predicate Balanced<T>(b: Books<T>, n: nat, active: bool) {
    && (active ==> n > 0)
    && (forall j: nat :: j >= n ==> b.held(j) == [] && !b.dropped(j))
    && Account(b, HeldOpen(b, n, active), Unbroken(b, n, active))
  }

  ghost predicate Empty<T>(b: Books<T>) {
    b.out == [] && b.came == [] && Idle(b) && forall j: nat :: !b.dropped(j)
  }

  ghost predicate Idle<T>(b: Books<T>) {
    forall j: nat :: b.held(j) == []
  }

  lemma SameTotal<T>(out: seq<T>, out': seq<T>, held: seq<T>, held': seq<T>, came: seq<T>, came': seq<T>)
    requires out <= out' && came <= came' && out'[|out|..] + held' == held + came'[|came|..]
    requires out + held == came
    ensures out' + held' == came'
  {
    var more, arrived := out'[|out|..], came'[|came|..];
    assert out' == out + more && came' == came + arrived;
    assert out + more + held' == out + (more + held');
    assert out + held + arrived == out + (held + arrived);
  }

  lemma MovesBalance<T>(b: Books<T>, b': Books<T>, n: nat)
    requires Balanced(b, n, true) && Moves(b, b', n - 1)
    ensures Balanced(b', n, true)
  {
    var j := n - 1;
    assert |b'.out| == |b.out| + |b'.out[|b.out|..]| && |b'.came| == |b.came| + |b'.came[|b.came|..]|;
    if b'.dropped(j) {
      assert !Unbroken(b', n, true);
      assert b.dropped(j) ==> !Unbroken(b, n, true);
    } else {
      assert Unbroken(b', n, true) == Unbroken(b, n, true);
      if Unbroken(b, n, true) {
        SameTotal(b.out, b'.out, b.held(j), b'.held(j), b.came, b'.came);
      }
    }
  }

  lemma BypassBalances<T>(b: Books<T>, b': Books<T>, n: nat, active: bool)
    requires Balanced(b, n, active) && Idle(b) && Bypasses(b, b')
    ensures Balanced(b', n, active) && Idle(b')
  {
    assert Unbroken(b', n, active) == Unbroken(b, n, active);
    assert |b'.out| == |b.out| + |b'.out[|b.out|..]| && |b'.came| == |b.came| + |b'.came[|b.came|..]|;
    if Unbroken(b, n, active) {
      SameTotal(b.out, b'.out, [], [], b.came, b'.came);
    }
  }

  /** A new invocation holds nothing back. */
  lemma OpeningBalances<T>(b: Books<T>, n: nat)
    requires Balanced(b, n, false)
    ensures Balanced(b, n + 1, true)
  {
    assert Unbroken(b, n + 1, true) == Unbroken(b, n, false);
  }

  /** An invocation closes with what it still holds back. */
  lemma ClosingBalances<T>(b: Books<T>, n: nat)
    requires Balanced(b, n, true)
    ensures Balanced(b, n, false)
  {
    assert b.out + [] == b.out;
    assert Unbroken(b, n, false) == (Unbroken(b, n, true) && b.held(n - 1) == []);
  }

  // ---------------------------------------------------------------------------
  // Any books that follow the actions in this way stay balanced.

  type Ledger<!T> = seq<Action> -> Books<T>

  /** What an action does to the books. */
  ghost predicate Follows<T>(b: Books<T>, b': Books<T>, a: Action) {
    match a
    case Handled(_, OnInvocation(j)) => Moves(b, b', j)
    case Handled(_, Degraded(_, _)) => Bypasses(b, b')
    case HandledSpans(j, _) => Moves(b, b', j) && b'.came == b.came
  }

  ghost predicate FollowsAt<T>(ledger: Ledger<T>, trace: seq<Action>, a: Action) {
    Follows(ledger(trace), ledger(trace + [a]), a)
  }

  ghost predicate Lawful<T>(ledger: Ledger<T>) {
    forall trace, a :: FollowsAt(ledger, trace, a)
  }

  lemma HandleAllNext(trace: seq<Action>, es: seq<Event>, how: Treatment)
    requires es != []
    ensures trace + HandleAll(es, how) == trace + HandleAll(es[..|es| - 1], how) + [Handled(Last(es), how)]
  {
    assert HandleAll(es, how) == HandleAll(es[..|es| - 1], how) + [Handled(Last(es), how)];
  }

  lemma {:induction false} EventsBalance<T>(ledger: Ledger<T>, trace: seq<Action>, es: seq<Event>, n: nat)
    requires Lawful(ledger) && Balanced(ledger(trace), n, true)
    ensures Balanced(ledger(trace + HandleAll(es, OnInvocation(n - 1))), n, true)
  {
    var how := OnInvocation(n - 1);
    if es == [] {
      assert trace + HandleAll(es, how) == trace;
    } else {
      var before, a := trace + HandleAll(es[..|es| - 1], how), Handled(Last(es), how);
      EventsBalance(ledger, trace, es[..|es| - 1], n);
      assert FollowsAt(ledger, before, a);
      MovesBalance(ledger(before), ledger(before + [a]), n);
      HandleAllNext(trace, es, how);
    }
  }

  lemma {:induction false} ChunkBalances<T>(ledger: Ledger<T>, trace: seq<Action>, es: seq<Event>, how: Treatment,
                                            n: nat, active: bool)
    requires Lawful(ledger) && how.Degraded? && Balanced(ledger(trace), n, active) && Idle(ledger(trace))
    ensures Balanced(ledger(trace + HandleAll(es, how)), n, active) && Idle(ledger(trace + HandleAll(es, how)))
  {
    if es == [] {
      assert trace + HandleAll(es, how) == trace;
    } else {
      var before, a := trace + HandleAll(es[..|es| - 1], how), Handled(Last(es), how);
      ChunkBalances(ledger, trace, es[..|es| - 1], how, n, active);
      assert FollowsAt(ledger, before, a);
      BypassBalances(ledger(before), ledger(before + [a]), n, active);
      HandleAllNext(trace, es, how);
    }
  }

  lemma SpansBalance<T>(ledger: Ledger<T>, trace: seq<Action>, rs: seq<ResourceSpans>, n: nat)
    requires Lawful(ledger) && Balanced(ledger(trace), n, true)
    ensures Balanced(ledger(trace + [HandledSpans(n - 1, rs)]), n, true)
    ensures Idle(ledger(trace)) ==> Idle(ledger(trace + [HandledSpans(n - 1, rs)]))
  {
    var a := HandledSpans(n - 1, rs);
    assert FollowsAt(ledger, trace, a);
    MovesBalance(ledger(trace), ledger(trace + [a]), n);
    MovesIdle(ledger(trace), ledger(trace + [a]), n - 1);
  }

  lemma MovesIdle<T>(b: Books<T>, b': Books<T>, j: nat)
    requires Moves(b, b', j) && b'.came == b.came
    ensures Idle(b) ==> Idle(b')
  {
    if Idle(b) {
      assert b'.out[|b.out|..] + b'.held(j) == [] + [];
    }
  }

  // ---------------------------------------------------------------------------
  // The merge keeps the books balanced.

  ghost predicate InBalance<T>(ledger: Ledger<T>, s: State) {
    && (s.invocation.Some? ==> s.invocation.value.ordinal + 1 == s.openings)
    && (s.initHandled ==> s.initHandlingStarted)
    && (!s.initHandled ==> Idle(ledger(s.trace)))
    && Balanced(ledger(s.trace), s.openings, s.invocation.Some?)
  }

  lemma OpenAccounts<T>(ledger: Ledger<T>, s: State)
    requires Lawful(ledger) && InBalance(ledger, s) && CanOpen(s)
    ensures InBalance(ledger, OpenNext(s))
  {
    var n, held, own := s.openings, s.functionSpansBuffer, s.invokeEventQueue[0].spans;
    var middle := s.trace + [HandledSpans(n, held)];
    OpeningBalances(ledger(s.trace), n);
    SpansBalance(ledger, s.trace, held, n + 1);
    SpansBalance(ledger, middle, own, n + 1);
    assert OpenNext(s).trace == middle + [HandledSpans(n, own)];
  }

  lemma TakeAccounts<T>(ledger: Ledger<T>, s: State)
    requires Lawful(ledger) && InBalance(ledger, s) && CanTake(s)
    ensures InBalance(ledger, TakeNext(s))
  {
    var es, how := Confluence.TakeAdds(s);
    var s' := TakeNext(s);
    if how.Degraded? {
      ChunkBalances(ledger, s.trace, es, how, s.openings, true);
    } else {
      EventsBalance(ledger, s.trace, es, s.openings);
      if es == [] {
        assert s'.trace == s.trace;
      }
      if s'.invocation.Some? {
        Confluence.AfterAllKeepsOrdinal(s.invocation.value, es);
      } else {
        ClosingBalances(ledger(s'.trace), s.openings);
      }
    }
  }

  lemma {:induction false} QuiesceAccounts<T>(ledger: Ledger<T>, s: State)
    requires Lawful(ledger) && InBalance(ledger, s)
    ensures InBalance(ledger, Quiesce(s))
    decreases !s.initHandled, |s.telemetryEventQueue|, |s.invokeEventQueue|
  {
    if CanOpen(s) {
      OpenAccounts(ledger, s);
      QuiesceAccounts(ledger, Step(s));
    } else if CanTake(s) {
      TakeAccounts(ledger, s);
      QuiesceAccounts(ledger, Step(s));
    }
  }

  lemma ReceiveSpansAccounts<T>(ledger: Ledger<T>, s: State, rs: seq<ResourceSpans>)
    requires Lawful(ledger) && InBalance(ledger, s)
    ensures InBalance(ledger, ReceiveSpans(s, rs))
  {
    if s.invokeEventQueue == [] && s.invocation.Some? && !s.invocation.value.runtimeDone {
      SpansBalance(ledger, s.trace, rs, s.openings);
    }
  }

  lemma {:induction false} RunAccounts<T>(ledger: Ledger<T>, inputs: seq<Input>)
    requires Lawful(ledger) && Empty(ledger([]))
    ensures InBalance(ledger, Run(inputs))
  {
    if inputs != [] {
      var s := Run(inputs[..|inputs| - 1]);
      RunAccounts(ledger, inputs[..|inputs| - 1]);
      match Last(inputs)
      case Invoked(e) => QuiesceAccounts(ledger, PushInvoke(s, e));
      case TelemetryReceived(es) => QuiesceAccounts(ledger, PushTelemetry(s, es));
      case SpansReceived(rs) => ReceiveSpansAccounts(ledger, s, rs);
    }
  }

  // ---------------------------------------------------------------------------
  // What balanced books tell.

  /** No invocation has dropped anything, and no closed one holds anything back. */
  ghost predicate AllLetGo<T>(b: Books<T>, s: State) {
    forall j: nat :: j < s.openings ==> !b.dropped(j) && (!IsOpen(s, j) ==> b.held(j) == [])
  }

  function HeldByOpen<T>(b: Books<T>, s: State): seq<T> {
    if s.invocation.Some? then b.held(s.invocation.value.ordinal) else []
  }

  lemma BooksTell<T>(b: Books<T>, s: State)
    requires Balanced(b, s.openings, s.invocation.Some?)
    requires s.invocation.Some? ==> s.invocation.value.ordinal + 1 == s.openings
    ensures b.out + HeldByOpen(b, s) == b.came <==> AllLetGo(b, s)
  {
    assert Unbroken(b, s.openings, s.invocation.Some?) <==> AllLetGo(b, s);
    assert |b.out + HeldByOpen(b, s)| == |b.out| + |HeldByOpen(b, s)|;
  }
}
