/** The circuit breaker over whole runs of questions and recorded outcomes, in any interleaving. */
module CircuitBreakerRuns {
  import opened Wrappers
  import opened CircuitBreaker

  datatype Event = Ask(time: int) | Succeed(time: int) | Fail(time: int)

  function Step(c: Circuit, e: Event): Circuit {
    match e
    case Ask(t) => Asked(c, t).0
    case Succeed(_) => Succeeded(c)
    case Fail(t) => Failed(c, t)
  }

  function Run(c: Circuit, events: seq<Event>): Circuit {
    if events == [] then c else Step(Run(c, events[..|events| - 1]), events[|events| - 1])
  }

  ghost predicate Ordered(events: seq<Event>) {
    forall i, j :: 0 <= i < j < |events| ==> events[i].time <= events[j].time
  }

  /** Event `i` of the run puts the circuit into the open state, or into it anew. */
  ghost predicate Opening(c: Circuit, events: seq<Event>, i: int) {
    0 <= i < |events| && events[i].Fail? && Trips(Run(c, events[..i]))
  }

  ghost predicate Admitting(c: Circuit, events: seq<Event>, i: int) {
    0 <= i < |events| && events[i].Ask? && Asked(Run(c, events[..i]), events[i].time).1.Allowed?
  }

  /** The failures recorded since the last recorded success. */
  function FailuresInRow(events: seq<Event>): nat {
    if events == [] then 0
    else
      match events[|events| - 1]
      case Fail(_) => FailuresInRow(events[..|events| - 1]) + 1
      case Succeed(_) => 0
      case Ask(_) => FailuresInRow(events[..|events| - 1])
  }

  function Effective(threshold: int): nat {
    if threshold >= 1 then threshold else 1
  }

  /** While closed, the counter holds the failures in a row and stays below the threshold. */
  lemma {:induction false} ClosedCountsFailures(threshold: int, reset: int, events: seq<Event>)
    ensures var c := Run(Initial(threshold, reset), events);
            && c.failureThreshold == threshold && c.resetTimeout == reset
            && (c.state == Closed ==> c.failureCount == FailuresInRow(events) < Effective(threshold))
  {
    if events != [] {
      ClosedCountsFailures(threshold, reset, events[..|events| - 1]);
    }
  }

  /** A closed circuit opens exactly when the threshold is reached by failures with no success between them. */
  lemma OpensAfterExactly(threshold: int, reset: int, events: seq<Event>)
    requires events != [] && Run(Initial(threshold, reset), events[..|events| - 1]).state == Closed
    ensures Run(Initial(threshold, reset), events).state != Closed <==>
            events[|events| - 1].Fail? && FailuresInRow(events) == Effective(threshold)
    ensures Run(Initial(threshold, reset), events).state != HalfOpen
  {
    ClosedCountsFailures(threshold, reset, events[..|events| - 1]);
  }

  // ---- Openings and admissions ----

  /** What a circuit remembers of the openings before it. */
  ghost predicate Remembers(c: Circuit, clock: int, last: Option<int>) {
    && c.halfOpenAttempts == 0 && c.halfOpenMax == 2
    && (c.state == Open ==> last.Some? && c.openedAt == last)
    && (c.state != Open && last.Some? ==> last.value + c.resetTimeout <= clock)
    && (last.Some? ==> last.value <= clock)
  }

  /** The time of the last opening of the run. */
  function LastOpening(c: Circuit, events: seq<Event>): Option<int> {
    if events == [] then None
    else
      var before, e := events[..|events| - 1], events[|events| - 1];
      if e.Fail? && Trips(Run(c, before)) then Some(e.time) else LastOpening(c, before)
  }

  lemma RemembersStep(c: Circuit, clock: int, last: Option<int>, e: Event)
    requires Remembers(c, clock, last) && clock <= e.time
    ensures Remembers(Step(c, e), e.time, if e.Fail? && Trips(c) then Some(e.time) else last)
    ensures e.Ask? ==> (Asked(c, e.time).1.Allowed? <==> last.None? || last.value + c.resetTimeout <= e.time)
  {
  }

  lemma {:induction false} RunRemembers(threshold: int, reset: int, events: seq<Event>, clock: int)
    requires Ordered(events) && (events != [] ==> events[|events| - 1].time <= clock)
    ensures var c := Initial(threshold, reset);
            && Run(c, events).resetTimeout == reset
            && Remembers(Run(c, events), clock, LastOpening(c, events))
  {
    if events != [] {
      var before, e := events[..|events| - 1], events[|events| - 1];
      RunRemembers(threshold, reset, before, e.time);
      RemembersStep(Run(Initial(threshold, reset), before), e.time, LastOpening(Initial(threshold, reset), before), e);
    }
  }

  lemma {:induction false} LastOpeningIsLast(c: Circuit, events: seq<Event>)
    requires Ordered(events)
    ensures var last := LastOpening(c, events);
            && (last.Some? ==> exists i :: Opening(c, events, i) && events[i].time == last.value)
            && (forall i :: Opening(c, events, i) ==> last.Some? && events[i].time <= last.value)
  {
    if events != [] {
      var before, m := events[..|events| - 1], |events| - 1;
      LastOpeningIsLast(c, before);
      forall i | i < m
        ensures Opening(c, events, i) <==> Opening(c, before, i)
      {
        if 0 <= i {
          assert before[..i] == events[..i];
        }
      }
      if !(events[m].Fail? && Trips(Run(c, before))) && LastOpening(c, before).Some? {
        var i :| Opening(c, before, i) && before[i].time == LastOpening(c, before).value;
        assert Opening(c, events, i);
      }
    }
  }

  /** A call is admitted exactly when the reset timeout has passed since every earlier opening. */
  lemma AdmittedExactly(threshold: int, reset: int, events: seq<Event>, j: nat)
    requires Ordered(events) && j < |events| && events[j].Ask?
    ensures var c := Initial(threshold, reset);
            Admitting(c, events, j) <==>
              forall i :: i < j && Opening(c, events, i) ==> events[i].time + reset <= events[j].time
  {
    var c, before := Initial(threshold, reset), events[..j];
    RunRemembers(threshold, reset, before, events[j].time);
    LastOpeningIsLast(c, before);
    RemembersStep(Run(c, before), events[j].time, LastOpening(c, before), events[j]);
    forall i | i < j
      ensures Opening(c, events, i) <==> Opening(c, before, i)
    {
      if 0 <= i {
        assert before[..i] == events[..i];
      }
    }
  }

  /** Questions alone leave an open circuit as it is until the timeout has passed, and half-open from then on. */
  lemma {:induction false} AskedOnly(c: Circuit, events: seq<Event>, t: int)
    requires c.state == Open && forall i :: 0 <= i < |events| ==> events[i].Ask? && events[i].time <= t
    ensures var d := Run(c, events);
            d == c || (d.state == HalfOpen && d.halfOpenAttempts == 0 && d.halfOpenMax == c.halfOpenMax
                       && OpenedAt(c) + c.resetTimeout <= t)
  {
    if events != [] {
      AskedOnly(c, events[..|events| - 1], t);
    }
  }

  /** The announced retry is exact: with nothing but questions in between, the circuit admits again from then on. */
  lemma RetryIsExact(c: Circuit, now: int, w: int, events: seq<Event>, t: int)
    requires c.state == Open && c.halfOpenMax > 0 && Asked(c, now).1 == Refused(Open, Some(w))
    requires now <= t && forall i :: 0 <= i < |events| ==> events[i].Ask? && events[i].time <= t
    ensures Asked(Run(c, events), t).1.Allowed? <==> t - now >= w
  {
    AskedOnly(c, events, t);
  }

  /** An answer tells the state it leaves; asking changes no count, and a refusal nothing. */
  lemma AnswerMeans(c: Circuit, now: int)
    ensures var (d, answer) := Asked(c, now);
            && answer.state == d.state && d == c.(state := d.state, halfOpenAttempts := d.halfOpenAttempts)
            && (answer.Refused? ==> d == c && (answer.retryAfterMs.Some? <==> c.state == Open))
            && (d.state != c.state ==> c.state == Open && d.state == HalfOpen && d.halfOpenAttempts == 0)
  {
  }

  // ---- Closing ----

  /** The successes recorded while half-open since the circuit last closed. */
  function ProbeSuccesses(c: Circuit, events: seq<Event>): nat {
    if events == [] then 0
    else
      var before, e := events[..|events| - 1], events[|events| - 1];
      var n := ProbeSuccesses(c, before);
      if e.Succeed? && Run(c, before).state == HalfOpen then (if n + 1 == 2 then 0 else n + 1) else n
  }

  /** A half-open circuit closes on the second probe success since it last closed, failures between or not. */
  lemma {:induction false} ClosesOnSecondProbe(threshold: int, reset: int, events: seq<Event>)
    ensures Run(Initial(threshold, reset), events).successCount == ProbeSuccesses(Initial(threshold, reset), events) < 2
    ensures events != [] && Run(Initial(threshold, reset), events[..|events| - 1]).state == HalfOpen ==>
              (Run(Initial(threshold, reset), events).state == Closed <==>
               events[|events| - 1].Succeed? && ProbeSuccesses(Initial(threshold, reset), events[..|events| - 1]) == 1)
  {
    if events != [] {
      ClosesOnSecondProbe(threshold, reset, events[..|events| - 1]);
    }
  }

  lemma RunSnoc(c: Circuit, events: seq<Event>, e: Event)
    ensures Run(c, events + [e]) == Step(Run(c, events), e)
  {
    assert (events + [e])[..|events|] == events;
  }

  /** The two probe successes need not be consecutive. */
  lemma ProbeFailureForgotten()
    ensures var events := [Fail(0), Ask(10), Succeed(11), Fail(12), Ask(22), Succeed(23)];
            Run(Initial(1, 10), events).state == Closed
  {
    var c := Initial(1, 10);
    var e1 := [] + [Fail(0)];
    var e2 := e1 + [Ask(10)];
    var e3 := e2 + [Succeed(11)];
    var e4 := e3 + [Fail(12)];
    var e5 := e4 + [Ask(22)];
    RunSnoc(c, [], Fail(0));
    RunSnoc(c, e1, Ask(10));
    RunSnoc(c, e2, Succeed(11));
    RunSnoc(c, e3, Fail(12));
    RunSnoc(c, e4, Ask(22));
    RunSnoc(c, e5, Succeed(23));
    assert e5 + [Succeed(23)] == [Fail(0), Ask(10), Succeed(11), Fail(12), Ask(22), Succeed(23)];
  }
}
