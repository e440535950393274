/**
 A governed connector call: rate limit, circuit breaker, dispatch, call log.
 The dispatch is awaited, so other calls may pass the gates before it returns.
 */
module ConnectorInvoke {
  import opened Wrappers
  import RateLimiter
  import CircuitBreaker

  type Bucket = RateLimiter.Bucket
  type Circuit = CircuitBreaker.Circuit

  /** What the dispatcher gave back: an answer, or an exception. */
  datatype Outcome = Answered(success: bool) | Threw

  datatype Entry = RateLimited | CircuitOpen | Finished(success: bool)

  /** The governance state of one connector; the gates are open where nothing is configured. */
  datatype Governance = Governance(bucket: Option<Bucket>, circuit: Option<Circuit>, log: seq<Entry>)

  datatype GateAnswer = Dispatch | TooManyRequests(waitMs: int) | Unavailable(retryAfterMs: Option<int>)

  function CheckedLimit(b: Option<Bucket>, now: int): Option<Bucket> {
    if b.Some? then Some(RateLimiter.Checked(b.value, now)) else None
  }

  predicate LimitAllows(b: Option<Bucket>, now: int) {
    b.Some? ==> RateLimiter.Judge(b.value, now).Allowed?
  }

  function AskedCircuit(c: Option<Circuit>, now: int): Option<Circuit> {
    if c.Some? then Some(CircuitBreaker.Asked(c.value, now).0) else None
  }

  predicate CircuitAllows(c: Option<Circuit>, now: int) {
    c.Some? ==> CircuitBreaker.Asked(c.value, now).1.Allowed?
  }

  /** Both gates and the consume, up to the await of the dispatch. */
  function Gate(g: Governance, now: int): (Governance, GateAnswer) {
    var b := CheckedLimit(g.bucket, now);
    if !LimitAllows(b, now) then
      (g.(bucket := b, log := g.log + [RateLimited]), TooManyRequests(RateLimiter.Judge(b.value, now).waitMs))
    else
      var c := AskedCircuit(g.circuit, now);
      if !CircuitAllows(g.circuit, now) then
        (g.(bucket := b, circuit := c, log := g.log + [CircuitOpen]),
         Unavailable(CircuitBreaker.Asked(g.circuit.value, now).1.retryAfterMs))
      else
        (g.(bucket := if b.Some? then Some(RateLimiter.Consumed(b.value)) else None, circuit := c), Dispatch)
  }

  function Record(c: Option<Circuit>, success: bool, now: int): Option<Circuit> {
    if c.None? then None
    else if success then Some(CircuitBreaker.Succeeded(c.value))
    else Some(CircuitBreaker.Failed(c.value, now))
  }

  function ReadStats(b: Option<Bucket>, now: int): Option<Bucket> {
    if b.Some? then Some(RateLimiter.Refill(b.value, now)) else None
  }

  /** After the dispatch: the record, the log and the statistics for the trace, up to the await of its write. */
  function Finish(g: Governance, now: int, outcome: Outcome): Governance {
    match outcome
    case Threw => g.(circuit := Record(g.circuit, false, now), log := g.log + [Finished(false)])
    case Answered(success) =>
      g.(bucket := ReadStats(g.bucket, now), circuit := Record(g.circuit, success, now),
         log := g.log + [Finished(success)])
  }

  /** The trace is written inside the same try block, so when that fails the call is recorded and logged once more. */
  function LoseTrace(g: Governance, now: int): Governance {
    g.(circuit := Record(g.circuit, false, now), log := g.log + [Finished(false)])
  }

  /** How the trace write of an answered call goes. */
  datatype Trace = Written | Lost(at: int)

  function Settled(g: Governance, now: int, outcome: Outcome, trace: Trace): Governance {
    var h := Finish(g, now, outcome);
    if outcome.Answered? && trace.Lost? then LoseTrace(h, trace.at) else h
  }

  datatype Connector = Connector(id: string, active: bool)

  datatype Response = Response(success: bool, statusCode: nat)

  class ConnectorService {
    const limiter: RateLimiter.Limiter
    const breaker: CircuitBreaker.Breaker
    var logs: map<string, seq<Entry>>

    constructor (limiter: RateLimiter.Limiter, breaker: CircuitBreaker.Breaker)
      ensures this.limiter == limiter && this.breaker == breaker && logs == map[]
    {
      this.limiter, this.breaker, logs := limiter, breaker, map[];
    }

    function Log(id: string): seq<Entry>
      reads this
    {
      if id in logs then logs[id] else []
    }

    function Of(id: string): Governance
      reads this, limiter, breaker
    {
      Governance(
        if id in limiter.buckets then Some(limiter.buckets[id]) else None,
        if id in breaker.circuits then Some(breaker.circuits[id]) else None,
        Log(id))
    }

    /** Nothing is configured, or forgotten, by a call. */
    twostate predicate OthersUnchanged(id: string)
      reads this, limiter, breaker
    {
      && (id in limiter.buckets <==> id in old(limiter.buckets))
      && (id in breaker.circuits <==> id in old(breaker.circuits))
      && limiter.buckets - {id} == old(limiter.buckets) - {id}
      && breaker.circuits - {id} == old(breaker.circuits) - {id}
      && logs - {id} == old(logs) - {id}
    }

    method AddLog(id: string, entry: Entry)
      modifies this
      ensures Of(id) == old(Of(id)).(log := old(Log(id)) + [entry]) && OthersUnchanged(id)
    {
      logs := logs[id := Log(id) + [entry]];
    }

    method CheckLimit(id: string, now: int) returns (verdict: Option<RateLimiter.Verdict>)
      modifies limiter
      ensures Of(id) == old(Of(id)).(bucket := CheckedLimit(old(Of(id)).bucket, now)) && OthersUnchanged(id)
      ensures verdict == if Of(id).bucket.Some? then Some(RateLimiter.Judge(Of(id).bucket.value, now)) else None
    {
      verdict := limiter.Check(id, now);
    }

    method AskCircuit(id: string, now: int) returns (answer: CircuitBreaker.Answer)
      modifies breaker
      ensures Of(id) == old(Of(id)).(circuit := AskedCircuit(old(Of(id)).circuit, now)) && OthersUnchanged(id)
      ensures answer == if Of(id).circuit.Some? then CircuitBreaker.Asked(old(Of(id)).circuit.value, now).1
                        else CircuitBreaker.Allowed(CircuitBreaker.Closed)
    {
      answer := breaker.CanExecute(id, now);
    }

    method RecordOutcome(id: string, success: bool, now: int)
      modifies breaker
      ensures Of(id) == old(Of(id)).(circuit := Record(old(Of(id)).circuit, success, now)) && OthersUnchanged(id)
    {
      if success {
        breaker.RecordSuccess(id);
      } else {
        breaker.RecordFailure(id, now);
      }
    }

    method TraceStats(id: string, now: int)
      modifies limiter
      ensures Of(id) == old(Of(id)).(bucket := ReadStats(old(Of(id)).bucket, now)) && OthersUnchanged(id)
    {
      var stats := limiter.GetStats(id, now);
    }

    method PassGates(id: string, now: int) returns (answer: GateAnswer)
      modifies this, limiter, breaker
      ensures (Of(id), answer) == Gate(old(Of(id)), now)
      ensures OthersUnchanged(id)
    {
      var verdict := CheckLimit(id, now);
      if verdict.Some? && verdict.value.Refused? {
        AddLog(id, RateLimited);
        return TooManyRequests(verdict.value.waitMs);
      }
      var ask := AskCircuit(id, now);
      if ask.Refused? {
        AddLog(id, CircuitOpen);
        return Unavailable(ask.retryAfterMs);
      }
      limiter.Consume(id);
      return Dispatch;
    }

    method Settle(id: string, now: int, outcome: Outcome, trace: Trace) returns (response: Response)
      modifies this, limiter, breaker
      ensures Of(id) == Settled(old(Of(id)), now, outcome, trace)
      ensures OthersUnchanged(id)
      ensures response.success <==> outcome == Answered(true) && trace.Written?
      ensures response.statusCode == if response.success then 200 else 500
    {
      if outcome.Answered? {
        RecordOutcome(id, outcome.success, now);
        AddLog(id, Finished(outcome.success));
        TraceStats(id, now);
        if trace.Written? {
          return Response(outcome.success, if outcome.success then 200 else 500);
        }
      }
      RecordOutcome(id, false, if outcome.Answered? then trace.at else now);
      AddLog(id, Finished(false));
      return Response(false, 500);
    }

    /** One call that no other call of the connector overtakes. */
    method Invoke(connector: Option<Connector>, now: int, outcome: Outcome, done: int, trace: Trace)
      returns (response: Response)
      modifies this, limiter, breaker
      ensures connector.None? ==> response == Response(false, 404)
      ensures connector.Some? && !connector.value.active ==> response == Response(false, 503)
      ensures connector.None? || !connector.value.active ==>
                logs == old(logs) && limiter.buckets == old(limiter.buckets)
                && breaker.circuits == old(breaker.circuits)
      ensures connector.Some? && connector.value.active ==>
                var id := connector.value.id;
                var (g, answer) := Gate(old(Of(id)), now);
                && OthersUnchanged(id)
                && Of(id) == (if answer.Dispatch? then Settled(g, done, outcome, trace) else g)
                && (response.success <==> answer.Dispatch? && outcome == Answered(true) && trace.Written?)
                && (answer.TooManyRequests? ==> response.statusCode == 429)
                && (answer.Unavailable? ==> response.statusCode == 503)
    {
      if connector.None? {
        return Response(false, 404);
      }
      if !connector.value.active {
        return Response(false, 503);
      }
      var answer := PassGates(connector.value.id, now);
      match answer {
        case TooManyRequests(_) => return Response(false, 429);
        case Unavailable(_) => return Response(false, 503);
        case Dispatch =>
          response := Settle(connector.value.id, done, outcome, trace);
      }
    }
  }
}
