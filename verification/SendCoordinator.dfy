/** The coordination state of the telemetry service, updated in place by the regions of the protocol
    (src/telemetry/telemetry_service.rs). */
module SendCoordinator {
  import opened Sequences
  import opened SendCoordination
  import Protocol = SendCoordination

  class SendCoordinator {
    var shouldSend: bool
    var shouldSendBy: Option<nat>
    var channel: seq<Signal>
    var buffer: seq<Output>
    ghost var received: nat
    ghost var timers: multiset<nat>
    ghost var batches: seq<seq<Output>>
    ghost var requests: set<nat>
    ghost var appended: seq<Output>

    /** The state at a given time, with the handler in a given place. */
    ghost function View(now: nat, handler: Handler): State
      reads this
    {
      State(now, shouldSend, shouldSendBy, channel, received, timers, handler, buffer, batches, requests, appended)
    }

    constructor ()
      ensures View(0, Idle) == INITIAL
    {
      shouldSend, shouldSendBy, channel, buffer := false, None, [], [];
      received, timers, batches, requests, appended := 0, multiset{}, [], {}, [];
    }

    method SignalShouldSend(ghost now: nat, ghost handler: Handler)
      modifies this
      ensures View(now, handler) == Protocol.SignalShouldSend(old(View(now, handler)))
    {
      shouldSend := true;
      channel := channel + [ShouldSend];
    }

    /** Returns the time for which a new timer has to be started. */
    method SignalShouldSendBy(time: nat, now: nat, ghost handler: Handler) returns (timer: Option<nat>)
      modifies this
      ensures View(now, handler) == Protocol.SignalShouldSendBy(old(View(now, handler)), time)
      ensures timer.Some? ==> timers == old(timers) + multiset{timer.value}
      ensures timer.None? ==> timers == old(timers)
    {
      timer := None;
      requests := requests + {time};
      if shouldSendBy.None? || time <= shouldSendBy.value {
        shouldSendBy := Some(time);
        var timeToSleep := if time <= now then 0 else time - now;
        if timeToSleep == 0 {
          shouldSendBy := None;
          requests := {};
          SignalShouldSend(now, handler);
        } else {
          timer := Some(now + timeToSleep);
          timers := timers + multiset{time};
        }
      }
    }

    method OnTimer(armedFor: nat, now: nat, ghost strategy: Strategy, ghost handler: Handler)
      requires Enabled(strategy, View(now, handler), TimerFires(armedFor))
      modifies this
      ensures View(now, handler) == Apply(strategy, old(View(now, handler)), TimerFires(armedFor))
    {
      ghost var s := View(now, handler);
      timers := timers - multiset{armedFor};
      if shouldSendBy.Some? && now >= shouldSendBy.value {
        shouldSendBy := None;
        requests := {};
        assert View(now, handler) == ClearDeadline(s.(timers := s.timers - multiset{armedFor}));
        SignalShouldSend(now, handler);
      }
    }

    method SendTelemetry(ghost now: nat, ghost handler: Handler) returns (batch: seq<Output>)
      modifies this
      ensures View(now, handler) == Protocol.SendTelemetry(old(View(now, handler)))
      ensures batches == old(batches) + [batch]
    {
      shouldSend := false;
      shouldSendBy := None;
      requests := {};
      batch := buffer;
      buffer := [];
      batches := batches + [batch];
    }

    /** What the invoke handler does between two waits. */
    method TrySend(strategy: Strategy, now: nat) returns (batch: Option<seq<Output>>)
      modifies this
      ensures View(now, if strategy.LowOverhead? then Idle else Receiving)
           == Apply(strategy, old(View(now, Checking)), Check)
      ensures batches == old(batches) + if batch.Some? then [batch.value] else []
    {
      batch := None;
      if shouldSend || (shouldSendBy.Some? && now >= shouldSendBy.value) {
        var sent := SendTelemetry(now, Checking);
        batch := Some(sent);
      }
    }

    /** Tells whether the handler is to finish. */
    method Receive(ghost strategy: Strategy, ghost now: nat) returns (finished: bool)
      requires channel != []
      modifies this
      ensures View(now, if finished then Idle else Checking)
           == Apply(strategy, old(View(now, Receiving)), ReceiveSignal)
    {
      var signal := channel[0];
      channel := channel[1..];
      received := received + 1;
      finished := signal.InvocationDone?;
    }

    /** Appends what processing produced and signals what it came to. */
    method HandleTelemetry(strategy: Strategy, outputs: seq<Output>, outcome: Outcome, ghost now: nat,
                           ghost handler: Handler)
      modifies this
      ensures View(now, handler) == Protocol.HandleTelemetry(strategy, old(View(now, handler)), outputs, outcome)
    {
      buffer := buffer + outputs;
      appended := appended + outputs;
      match outcome {
        case NotDone =>
        case Done =>
          if strategy.SendAfterInvocation() {
            SignalShouldSend(now, handler);
          }
          SignalInvocationDone(now, handler);
        case Failed => SignalInvocationDone(now, handler);
      }
    }

    method SignalInvocationDone(ghost now: nat, ghost handler: Handler)
      modifies this`channel
      ensures View(now, handler) == Protocol.SignalInvocationDone(old(View(now, handler)))
    {
      channel := channel + [InvocationDone];
    }
  }
}
