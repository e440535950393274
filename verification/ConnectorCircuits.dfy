/** The circuit of a connector under overlapping calls: what it counts, when it opens and whom it lets through. */
module ConnectorCircuits {
  import opened Wrappers
  import opened ConnectorInvoke
  import opened ConnectorRuns
  import CircuitBreaker
  import Circuits = CircuitBreakerRuns

  /** A dispatch came back with success. */
  predicate Succeeds(e: Event) {
    e.Leave? && e.outcome == Answered(true)
  }

  /** A dispatch came back otherwise, or a trace was lost. */
  predicate Fails(e: Event) {
    e.TraceLost? || (e.Leave? && e.outcome != Answered(true))
  }

  function CountOf(events: seq<Event>, p: Event -> bool): nat {
    if events == [] then 0
    else CountOf(events[..|events| - 1], p) + if p(events[|events| - 1]) then 1 else 0
  }

  /** What the circuit sees of an event: the question of a call within the limits, or an outcome. */
  function CircuitEvent(g: Governance, e: Event): seq<Circuits.Event> {
    match e
    case Enter(t) => if Gate(g, t).1.TooManyRequests? then [] else [Circuits.Ask(t)]
    case Leave(t, outcome) => if outcome == Answered(true) then [Circuits.Succeed(t)] else [Circuits.Fail(t)]
    case TraceLost(t) => [Circuits.Fail(t)]
  }

  function CircuitEvents(g: Governance, events: seq<Event>): seq<Circuits.Event> {
    if events == [] then []
    else CircuitEvents(g, events[..|events| - 1]) + CircuitEvent(Run(g, events[..|events| - 1]), events[|events| - 1])
  }

  lemma CircuitStep(g: Governance, e: Event)
    requires g.circuit.Some?
    ensures Step(g, e).circuit.Some?
    ensures CircuitEvent(g, e) == [] ==> Step(g, e).circuit == g.circuit
    ensures CircuitEvent(g, e) != [] ==>
              && |CircuitEvent(g, e)| == 1 && CircuitEvent(g, e)[0].time == e.time
              && Step(g, e).circuit.value == Circuits.Step(g.circuit.value, CircuitEvent(g, e)[0])
    ensures e.Enter? && CircuitEvent(g, e) != [] ==>
              (Dispatches(g, e) <==> CircuitBreaker.Asked(g.circuit.value, e.time).1.Allowed?)
  {
  }

  lemma CircuitAppended(c: CircuitBreaker.Circuit, seen: seq<Circuits.Event>, more: seq<Circuits.Event>)
    requires |more| <= 1
    ensures Circuits.Run(c, seen + more) ==
            if more == [] then Circuits.Run(c, seen) else Circuits.Step(Circuits.Run(c, seen), more[0])
  {
    if more == [] {
      assert seen + more == seen;
    } else {
      Circuits.RunSnoc(c, seen, more[0]);
      assert more == [more[0]];
    }
  }

  /** The circuit moves as the breaker's own run of the questions and outcomes. */
  lemma {:induction false} CircuitProjects(g: Governance, c: Circuit, events: seq<Event>)
    requires g.circuit == Some(c)
    ensures Run(g, events).circuit == Some(Circuits.Run(c, CircuitEvents(g, events)))
  {
    if events != [] {
      var before, e := events[..|events| - 1], events[|events| - 1];
      CircuitProjects(g, c, before);
      CircuitStep(Run(g, before), e);
      CircuitAppended(c, CircuitEvents(g, before), CircuitEvent(Run(g, before), e));
    }
  }

  // ---- Accounts ----

  lemma AccountStep(g: Governance, e: Event)
    requires g.circuit.Some?
    ensures Step(g, e).circuit.Some?
    ensures Step(g, e).circuit.value.totalSuccesses == g.circuit.value.totalSuccesses + if Succeeds(e) then 1 else 0
    ensures Step(g, e).circuit.value.totalFailures == g.circuit.value.totalFailures + if Fails(e) then 1 else 0
  {
  }

  /** Successes are counted for exactly the calls that came back with one, failures for the rest and for lost traces. */
  lemma {:induction false} AccountsAreExact(g: Governance, c: Circuit, events: seq<Event>)
    requires g.circuit == Some(c)
    ensures var d := Run(g, events).circuit;
            && d.Some?
            && d.value.totalSuccesses == c.totalSuccesses + CountOf(events, Succeeds)
            && d.value.totalFailures == c.totalFailures + CountOf(events, Fails)
  {
    if events != [] {
      AccountsAreExact(g, c, events[..|events| - 1]);
      AccountStep(Run(g, events[..|events| - 1]), events[|events| - 1]);
    }
  }

  /** One log entry for each call that was refused or came back, and one more for each lost trace, in order. */
  function LogEntry(g: Governance, e: Event): seq<Entry> {
    match e
    case Enter(t) =>
      (match Gate(g, t).1
       case Dispatch => []
       case TooManyRequests(_) => [RateLimited]
       case Unavailable(_) => [CircuitOpen])
    case Leave(_, outcome) => [Finished(outcome == Answered(true))]
    case TraceLost(_) => [Finished(false)]
  }

  lemma LogsEntry(g: Governance, e: Event)
    ensures Step(g, e).log == g.log + LogEntry(g, e)
  {
  }

  // ---- When it opens ----

  /** The failures since the last success. */
  function FailuresInRow(events: seq<Event>): nat {
    if events == [] then 0
    else
      var before, e := events[..|events| - 1], events[|events| - 1];
      if Succeeds(e) then 0 else if Fails(e) then FailuresInRow(before) + 1 else FailuresInRow(before)
  }

  lemma OneMoreInRow(seen: seq<Circuits.Event>, e: Circuits.Event)
    ensures Circuits.FailuresInRow(seen + [e]) ==
            match e
            case Fail(_) => Circuits.FailuresInRow(seen) + 1
            case Succeed(_) => 0
            case Ask(_) => Circuits.FailuresInRow(seen)
  {
    assert (seen + [e])[..|seen + [e]| - 1] == seen;
  }

  lemma {:induction false} SameFailuresInRow(g: Governance, events: seq<Event>)
    ensures Circuits.FailuresInRow(CircuitEvents(g, events)) == FailuresInRow(events)
  {
    if events != [] {
      var before, e := events[..|events| - 1], events[|events| - 1];
      var seen, more := CircuitEvents(g, before), CircuitEvent(Run(g, before), e);
      SameFailuresInRow(g, before);
      if more == [] {
        assert seen + more == seen;
      } else {
        assert more == [more[0]];
        OneMoreInRow(seen, more[0]);
      }
    }
  }

  /** The connector starts with a fresh circuit, whatever its limits. */
  ghost predicate Fresh(g: Governance, threshold: int, reset: int) {
    g.circuit == Some(CircuitBreaker.Initial(threshold, reset))
  }

  function StateOf(g: Governance): CircuitBreaker.State {
    if g.circuit.Some? then g.circuit.value.state else CircuitBreaker.Closed
  }

  /** A closed circuit counts the failures since the last success, and they are fewer than its threshold. */
  lemma ClosedCounts(g: Governance, threshold: int, reset: int, events: seq<Event>)
    requires Fresh(g, threshold, reset)
    ensures var d := Run(g, events).circuit;
            && d.Some?
            && (d.value.state == CircuitBreaker.Closed ==>
                  d.value.failureCount == FailuresInRow(events) < Circuits.Effective(threshold))
  {
    CircuitProjects(g, CircuitBreaker.Initial(threshold, reset), events);
    Circuits.ClosedCountsFailures(threshold, reset, CircuitEvents(g, events));
    SameFailuresInRow(g, events);
  }

  lemma OpensWith(threshold: int, reset: int, seen: seq<Circuits.Event>, e: Circuits.Event)
    requires Circuits.Run(CircuitBreaker.Initial(threshold, reset), seen).state == CircuitBreaker.Closed
    ensures var d := Circuits.Run(CircuitBreaker.Initial(threshold, reset), seen + [e]);
            && (d.state == CircuitBreaker.Open <==>
                e.Fail? && Circuits.FailuresInRow(seen + [e]) == Circuits.Effective(threshold))
            && (d.state != CircuitBreaker.Open ==> d.state == CircuitBreaker.Closed)
  {
    assert (seen + [e])[..|seen + [e]| - 1] == seen;
    Circuits.OpensAfterExactly(threshold, reset, seen + [e]);
  }

  /** It opens exactly with the failure that makes as many of them in a row as its threshold. */
  lemma OpensExactly(g: Governance, threshold: int, reset: int, before: seq<Event>, e: Event)
    requires Fresh(g, threshold, reset) && StateOf(Run(g, before)) == CircuitBreaker.Closed
    ensures var d := StateOf(Run(g, before + [e]));
            && (d == CircuitBreaker.Open <==> Fails(e) && FailuresInRow(before + [e]) == Circuits.Effective(threshold))
            && (d != CircuitBreaker.Open ==> d == CircuitBreaker.Closed)
  {
    var c := CircuitBreaker.Initial(threshold, reset);
    var seen, more := CircuitEvents(g, before), CircuitEvent(Run(g, before), e);
    assert (before + [e])[..|before|] == before;
    CircuitProjects(g, c, before);
    CircuitProjects(g, c, before + [e]);
    SameFailuresInRow(g, before + [e]);
    if more == [] {
      assert seen + more == seen;
    } else {
      assert more == [more[0]];
      OpensWith(threshold, reset, seen, more[0]);
    }
  }

  /** If every call comes back with success and every trace is written, the circuit never opens. */
  lemma {:induction false} SuccessKeepsClosed(g: Governance, threshold: int, reset: int, events: seq<Event>)
    requires Fresh(g, threshold, reset) && forall e :: e in events ==> !Fails(e)
    ensures StateOf(Run(g, events)) == CircuitBreaker.Closed
  {
    if events != [] {
      var before, e := events[..|events| - 1], events[|events| - 1];
      SuccessKeepsClosed(g, threshold, reset, before);
      OpensExactly(g, threshold, reset, before, e);
      assert before + [e] == events;
    }
  }

  // ---- Whom it lets through ----

  lemma {:induction false} CircuitEventsOrdered(g: Governance, events: seq<Event>, clock: int)
    requires g.circuit.Some? && forall i :: 0 <= i < |events| ==> events[i].time <= clock
    requires forall i, j :: 0 <= i < j < |events| ==> events[i].time <= events[j].time
    ensures Run(g, events).circuit.Some?
    ensures Circuits.Ordered(CircuitEvents(g, events))
    ensures forall i :: 0 <= i < |CircuitEvents(g, events)| ==> CircuitEvents(g, events)[i].time <= clock
  {
    if events != [] {
      var before, e := events[..|events| - 1], events[|events| - 1];
      CircuitEventsOrdered(g, before, e.time);
      CircuitStep(Run(g, before), e);
    }
  }

  lemma AskedLast(threshold: int, reset: int, seen: seq<Circuits.Event>, t: int)
    requires Circuits.Ordered(seen) && forall i :: 0 <= i < |seen| ==> seen[i].time <= t
    ensures var c := CircuitBreaker.Initial(threshold, reset);
            CircuitBreaker.Asked(Circuits.Run(c, seen), t).1.Allowed? <==>
            forall i :: Circuits.Opening(c, seen, i) ==> seen[i].time + reset <= t
  {
    var c, asked := CircuitBreaker.Initial(threshold, reset), seen + [Circuits.Ask(t)];
    Circuits.AdmittedExactly(threshold, reset, asked, |seen|);
    assert asked[..|seen|] == seen;
    forall i | 0 <= i < |seen|
      ensures asked[..i] == seen[..i] && asked[i] == seen[i]
    {
    }
    assert forall i :: i < |seen| ==> (Circuits.Opening(c, asked, i) <==> Circuits.Opening(c, seen, i));
  }

  /** A call within the limits is dispatched exactly when the reset timeout has passed since every earlier opening. */
  lemma {:induction false} DispatchedExactly(g: Governance, threshold: int, reset: int, before: seq<Event>, t: int)
    requires Fresh(g, threshold, reset) && forall i :: 0 <= i < |before| ==> before[i].time <= t
    requires forall i, j :: 0 <= i < j < |before| ==> before[i].time <= before[j].time
    requires !Gate(Run(g, before), t).1.TooManyRequests?
    ensures var c, seen := CircuitBreaker.Initial(threshold, reset), CircuitEvents(g, before);
            Dispatches(Run(g, before), Enter(t)) <==>
            forall i :: Circuits.Opening(c, seen, i) ==> seen[i].time + reset <= t
  {
    CircuitEventsOrdered(g, before, t);
    CircuitProjects(g, CircuitBreaker.Initial(threshold, reset), before);
    CircuitStep(Run(g, before), Enter(t));
    AskedLast(threshold, reset, CircuitEvents(g, before), t);
  }
}
