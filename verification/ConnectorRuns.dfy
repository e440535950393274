/** Governed calls of one connector, overlapping in any way: limits, openings and accounts. */
module ConnectorRuns {
  import opened Wrappers
  import opened ConnectorInvoke
  import RateLimiter
  import CircuitBreaker
  import Limits = RateLimiterRuns
  import Circuits = CircuitBreakerRuns

  /** A call reaches the gates, an earlier dispatch comes back, or the trace write of an answered call throws. */
  datatype Event = Enter(time: int) | Leave(time: int, outcome: Outcome) | TraceLost(time: int)

  function Step(g: Governance, e: Event): Governance {
    match e
    case Enter(t) => Gate(g, t).0
    case Leave(t, outcome) => Finish(g, t, outcome)
    case TraceLost(t) => LoseTrace(g, t)
  }

  function Run(g: Governance, events: seq<Event>): Governance {
    if events == [] then g else Step(Run(g, events[..|events| - 1]), events[|events| - 1])
  }

  predicate Dispatches(g: Governance, e: Event) {
    e.Enter? && Gate(g, e.time).1.Dispatch?
  }

  /** The calls dispatched at times between `from` and `to`, both included. */
  function Dispatched(g: Governance, events: seq<Event>, from: int, to: int): nat {
    if events == [] then 0
    else
      var before, e := events[..|events| - 1], events[|events| - 1];
      Dispatched(g, before, from, to) + if Dispatches(Run(g, before), e) && from <= e.time <= to then 1 else 0
  }

  ghost predicate Ordered(start: int, events: seq<Event>) {
    && (forall i :: 0 <= i < |events| ==> start <= events[i].time)
    && (forall i, j :: 0 <= i < j < |events| ==> events[i].time <= events[j].time)
  }

  function Governed(b: Bucket, c: Circuit): Governance {
    Governance(Some(b), Some(c), [])
  }

  /** What the limiter sees of an event. */
  function LimiterEvent(g: Governance, e: Event): seq<Limits.Event> {
    match e
    case Enter(t) => [Limits.Event(t, if Gate(g, t).1.Unavailable? then Limits.Check else Limits.Call)]
    case Leave(t, outcome) => if outcome.Answered? then [Limits.Event(t, Limits.Stats)] else []
    case TraceLost(_) => []
  }

  function LimiterEvents(g: Governance, events: seq<Event>): seq<Limits.Event> {
    if events == [] then []
    else LimiterEvents(g, events[..|events| - 1]) + LimiterEvent(Run(g, events[..|events| - 1]), events[|events| - 1])
  }

  lemma LimiterStep(g: Governance, e: Event)
    requires g.bucket.Some?
    ensures Step(g, e).bucket.Some?
    ensures LimiterEvent(g, e) == [] ==> Step(g, e).bucket == g.bucket && !Dispatches(g, e)
    ensures LimiterEvent(g, e) != [] ==>
              && |LimiterEvent(g, e)| == 1 && LimiterEvent(g, e)[0].time == e.time
              && Step(g, e).bucket.value == Limits.Step(g.bucket.value, LimiterEvent(g, e)[0])
              && (Dispatches(g, e) <==> Limits.Admits(g.bucket.value, LimiterEvent(g, e)[0]))
  {
  }

  /** What the limiter has seen so far agrees with the calls so far. */
  ghost predicate Projected(b: Bucket, g: Governance, seen: seq<Limits.Event>, clock: int, dispatched: nat,
                            from: int, to: int) {
    && Limits.Ordered(b.lastRefill, seen)
    && (forall k :: 0 <= k < |seen| ==> seen[k].time <= clock)
    && g.bucket == Some(Limits.Run(b, seen))
    && dispatched == Limits.Admitted(b, seen, from, to)
  }

  lemma ProjectedStep(b: Bucket, g: Governance, seen: seq<Limits.Event>, clock: int, dispatched: nat, from: int,
                      to: int, e: Event)
    requires Projected(b, g, seen, clock, dispatched, from, to) && clock <= e.time && b.lastRefill <= e.time
    ensures Projected(b, Step(g, e), seen + LimiterEvent(g, e), e.time,
                      dispatched + if Dispatches(g, e) && from <= e.time <= to then 1 else 0, from, to)
  {
    LimiterStep(g, e);
    if LimiterEvent(g, e) == [] {
      assert seen + LimiterEvent(g, e) == seen;
    } else {
      Limits.EventAppended(b, seen, LimiterEvent(g, e)[0], from, to);
      assert LimiterEvent(g, e) == [LimiterEvent(g, e)[0]];
    }
  }

  function Clock(start: int, events: seq<Event>): int {
    if events == [] then start else events[|events| - 1].time
  }

  /** The bucket moves as the limiter's own run, and dispatches are exactly its admitted calls. */
  lemma {:induction false} LimiterProjects(b: Bucket, c: Circuit, events: seq<Event>, from: int, to: int)
    requires Ordered(b.lastRefill, events)
    ensures var g := Governed(b, c);
            Projected(b, Run(g, events), LimiterEvents(g, events), Clock(b.lastRefill, events),
                      Dispatched(g, events, from, to), from, to)
  {
    if events != [] {
      var before, e, g := events[..|events| - 1], events[|events| - 1], Governed(b, c);
      LimiterProjects(b, c, before, from, to);
      ProjectedStep(b, Run(g, before), LimiterEvents(g, before), Clock(b.lastRefill, before),
                    Dispatched(g, before, from, to), from, to, e);
    }
  }

  /** However calls overlap, dispatches keep the burst and window bounds of the limiter. */
  lemma DispatchBounds(maxPerMinute: nat, maxPerHour: nat, burst: real, c: Circuit, now: int, events: seq<Event>,
                       from: int, to: int)
    requires burst >= 0.0 && Ordered(now, events) && from <= to
    ensures var b := RateLimiter.Configured(maxPerMinute, maxPerHour, burst, now);
            var g := Governed(b, c);
            && Dispatched(g, events, from, to) as real <= burst + Limits.Earned(b.RefillRate(), from, to)
            && Dispatched(g, events, from, from + RateLimiter.MINUTE) <= 2 * maxPerMinute
            && Dispatched(g, events, from, from + RateLimiter.HOUR) <= 2 * maxPerHour
  {
    var b := RateLimiter.Configured(maxPerMinute, maxPerHour, burst, now);
    var seen := LimiterEvents(Governed(b, c), events);
    LimiterProjects(b, c, events, from, to);
    LimiterProjects(b, c, events, from, from + RateLimiter.MINUTE);
    LimiterProjects(b, c, events, from, from + RateLimiter.HOUR);
    Limits.BurstBound(b, seen, from, to);
    Limits.AtMostTwicePerWindow(seen, maxPerMinute, maxPerHour, burst, now, from);
  }

  // ---- Openings ----

  /** The circuit has been open since at least `opening`, or its reset timeout has passed since then. */
  ghost predicate Guarded(c: Circuit, clock: int, opening: int) {
    if c.state == CircuitBreaker.Open then c.openedAt.Some? && c.openedAt.value >= opening
    else clock >= opening + c.resetTimeout
  }

  lemma GuardedStep(g: Governance, clock: int, opening: int, e: Event)
    requires g.circuit.Some? && Guarded(g.circuit.value, clock, opening) && clock <= e.time && opening <= clock
    ensures Step(g, e).circuit.Some? && Step(g, e).circuit.value.resetTimeout == g.circuit.value.resetTimeout
    ensures Guarded(Step(g, e).circuit.value, e.time, opening)
    ensures Dispatches(g, e) ==> e.time >= opening + g.circuit.value.resetTimeout
  {
  }

  /** Event `i` leaves the circuit open from its own time on. */
  ghost predicate OpensAt(g: Governance, events: seq<Event>, i: nat)
    requires i < |events|
  {
    var c := Run(g, events[..i + 1]).circuit;
    c.Some? && c.value.state == CircuitBreaker.Open && c.value.openedAt == Some(events[i].time)
  }

  lemma RunAt(g: Governance, events: seq<Event>, n: nat)
    requires 0 < n <= |events|
    ensures Run(g, events[..n]) == Step(Run(g, events[..n - 1]), events[n - 1])
  {
    assert events[..n][..n - 1] == events[..n - 1];
  }

  /** After event `n`, the circuit is guarded since the opening at event `i`. */
  ghost predicate GuardedAfter(g: Governance, events: seq<Event>, i: nat, n: nat, reset: int)
    requires i < |events| && 0 < n <= |events|
  {
    var c := Run(g, events[..n]).circuit;
    c.Some? && c.value.resetTimeout == reset && Guarded(c.value, events[n - 1].time, events[i].time)
  }

  lemma GuardedNext(g: Governance, events: seq<Event>, i: nat, n: nat, reset: int)
    requires i + 1 < n <= |events| && GuardedAfter(g, events, i, n - 1, reset)
    requires events[i].time <= events[n - 2].time <= events[n - 1].time
    ensures GuardedAfter(g, events, i, n, reset)
  {
    RunAt(g, events, n);
    GuardedStep(Run(g, events[..n - 1]), events[n - 2].time, events[i].time, events[n - 1]);
  }

  lemma {:induction false} GuardedSince(g: Governance, events: seq<Event>, i: nat, n: nat, reset: int)
    requires i < n <= |events| && OpensAt(g, events, i)
    requires forall j, k :: 0 <= j < k < |events| ==> events[j].time <= events[k].time
    requires Run(g, events[..i + 1]).circuit.value.resetTimeout == reset
    ensures GuardedAfter(g, events, i, n, reset)
    decreases n
  {
    if n > i + 1 {
      GuardedSince(g, events, i, n - 1, reset);
      GuardedNext(g, events, i, n, reset);
    }
  }

  /** Nothing is dispatched within the reset timeout of an opening, whichever call caused it. */
  lemma NoDispatchSoonAfterOpening(g: Governance, events: seq<Event>, i: nat, j: nat)
    requires i < j < |events| && OpensAt(g, events, i)
    requires forall k, l :: 0 <= k < l < |events| ==> events[k].time <= events[l].time
    requires Dispatches(Run(g, events[..j]), events[j])
    ensures events[j].time >= events[i].time + Run(g, events[..i + 1]).circuit.value.resetTimeout
  {
    GuardedSince(g, events, i, j, Run(g, events[..i + 1]).circuit.value.resetTimeout);
    GuardedStep(Run(g, events[..j]), events[j - 1].time, events[i].time, events[j]);
  }

  // ---- Accounts ----

  function Finished(events: seq<Event>): nat {
    if events == [] then 0 else Finished(events[..|events| - 1]) + if events[|events| - 1].Leave? then 1 else 0
  }

  function LostTraces(events: seq<Event>): nat {
    if events == [] then 0
    else LostTraces(events[..|events| - 1]) + if events[|events| - 1].TraceLost? then 1 else 0
  }

  function Recorded(g: Governance): int {
    if g.circuit.Some? then g.circuit.value.totalSuccesses + g.circuit.value.totalFailures else 0
  }

  lemma RecordStep(g: Governance, e: Event)
    requires g.circuit.Some?
    ensures Step(g, e).circuit.Some?
    ensures Recorded(Step(g, e)) == Recorded(g) + (if e.Leave? then 1 else 0) + if e.TraceLost? then 1 else 0
  {
  }

  /** The circuit records one outcome per finished call, and one more for each lost trace. */
  lemma {:induction false} RecordsPerCall(b: Bucket, c: Circuit, events: seq<Event>)
    ensures Run(Governed(b, c), events).circuit.Some?
    ensures Recorded(Run(Governed(b, c), events)) == Recorded(Governed(b, c)) + Finished(events) + LostTraces(events)
  {
    if events != [] {
      RecordsPerCall(b, c, events[..|events| - 1]);
      RecordStep(Run(Governed(b, c), events[..|events| - 1]), events[|events| - 1]);
    }
  }

  lemma {:induction false} NoLostTraces(events: seq<Event>)
    ensures LostTraces(events) == 0 <==> forall e :: e in events ==> !e.TraceLost?
  {
    if events != [] {
      NoLostTraces(events[..|events| - 1]);
    }
  }

  /** Each finished call is recorded exactly once, if and only if every trace was written. */
  lemma OneRecordPerCallIff(b: Bucket, c: Circuit, events: seq<Event>)
    ensures Recorded(Run(Governed(b, c), events)) == Recorded(Governed(b, c)) + Finished(events) <==>
            forall e :: e in events ==> !e.TraceLost?
  {
    RecordsPerCall(b, c, events);
    NoLostTraces(events);
  }
}
