/** The three-state circuit breaker in front of a connector. */
module CircuitBreaker {
  import opened Wrappers

  datatype State = Closed | Open | HalfOpen

  datatype Circuit = Circuit(
    state: State, failureCount: nat, successCount: nat, failureThreshold: int, resetTimeout: int,
    lastFailure: Option<int>, openedAt: Option<int>, totalFailures: nat, totalSuccesses: nat,
    halfOpenAttempts: nat, halfOpenMax: nat)

  datatype Answer = Allowed(state: State) | Refused(state: State, retryAfterMs: Option<int>)

  function Initial(failureThreshold: int, resetTimeout: int): Circuit {
    Circuit(Closed, 0, 0, failureThreshold, resetTimeout, None, None, 0, 0, 0, 2)
  }

  function OpenedAt(c: Circuit): int {
    if c.openedAt.Some? then c.openedAt.value else 0
  }

  /** The circuit after `canExecute`, and its answer. */
  function Asked(c: Circuit, now: int): (Circuit, Answer) {
    match c.state
    case Closed => (c, Allowed(Closed))
    case Open =>
      var elapsed := now - OpenedAt(c);
      if elapsed >= c.resetTimeout then (c.(state := HalfOpen, halfOpenAttempts := 0), Allowed(HalfOpen))
      else (c, Refused(Open, Some(c.resetTimeout - elapsed)))
    case HalfOpen =>
      if c.halfOpenAttempts < c.halfOpenMax then (c, Allowed(HalfOpen)) else (c, Refused(HalfOpen, None))
  }

  function Succeeded(c: Circuit): Circuit {
    var d := c.(totalSuccesses := c.totalSuccesses + 1);
    if c.state != HalfOpen then d.(failureCount := 0)
    else if c.successCount + 1 >= 2 then d.(state := Closed, failureCount := 0, successCount := 0)
    else d.(successCount := c.successCount + 1)
  }

  predicate Trips(c: Circuit) {
    c.state == HalfOpen || c.failureCount + 1 >= c.failureThreshold
  }

  function Failed(c: Circuit, now: int): Circuit {
    var d := c.(totalFailures := c.totalFailures + 1, failureCount := c.failureCount + 1, lastFailure := Some(now));
    if Trips(c) then d.(state := Open, openedAt := Some(now)) else d
  }

  class Breaker {
    var circuits: map<string, Circuit>

    constructor ()
      ensures circuits == map[]
    {
      circuits := map[];
    }

    method Init(id: string, failureThreshold: int, resetTimeout: int)
      modifies this
      ensures circuits == old(circuits)[id := Initial(failureThreshold, resetTimeout)]
    {
      circuits := circuits[id := Circuit(Closed, 0, 0, failureThreshold, resetTimeout, None, None, 0, 0, 0, 2)];
    }

    method CanExecute(id: string, now: int) returns (answer: Answer)
      modifies this
      ensures id !in old(circuits) ==> answer == Allowed(Closed) && circuits == old(circuits)
      ensures id in old(circuits) ==>
                && circuits == old(circuits)[id := Asked(old(circuits)[id], now).0]
                && answer == Asked(old(circuits)[id], now).1
    {
      if id !in circuits {
        return Allowed(Closed);
      }
      var c := circuits[id];
      if c.state == Closed {
        return Allowed(Closed);
      }
      if c.state == Open {
        var elapsed := now - OpenedAt(c);
        if elapsed >= c.resetTimeout {
          circuits := circuits[id := c.(state := HalfOpen, halfOpenAttempts := 0)];
          return Allowed(HalfOpen);
        }
        return Refused(Open, Some(c.resetTimeout - elapsed));
      }
      if c.halfOpenAttempts < c.halfOpenMax {
        return Allowed(HalfOpen);
      }
      return Refused(c.state, None);
    }

    method RecordSuccess(id: string)
      modifies this
      ensures circuits == if id in old(circuits) then old(circuits)[id := Succeeded(old(circuits)[id])]
              else old(circuits)
    {
      if id in circuits {
        var c := circuits[id];
        c := c.(totalSuccesses := c.totalSuccesses + 1);
        if c.state == HalfOpen {
          c := c.(successCount := c.successCount + 1);
          if c.successCount >= 2 {
            c := c.(state := Closed, failureCount := 0, successCount := 0);
          }
        } else {
          c := c.(failureCount := 0);
        }
        circuits := circuits[id := c];
      }
    }

    method RecordFailure(id: string, now: int)
      modifies this
      ensures circuits == if id in old(circuits) then old(circuits)[id := Failed(old(circuits)[id], now)]
              else old(circuits)
    {
      if id in circuits {
        var c := circuits[id];
        c := c.(totalFailures := c.totalFailures + 1, failureCount := c.failureCount + 1, lastFailure := Some(now));
        if c.state == HalfOpen {
          c := c.(state := Open, openedAt := Some(now));
        } else if c.failureCount >= c.failureThreshold {
          c := c.(state := Open, openedAt := Some(now));
        }
        circuits := circuits[id := c];
      }
    }
  }
}
