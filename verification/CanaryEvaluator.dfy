/**
 The canary evaluator: each queued job evaluates the gate once, moves the
 deployment, and decides whether another job is queued.
 */
module CanaryEvaluator {
  import opened Wrappers
  import opened CanaryGates

  const MIN_EXECUTIONS_FOR_GATE := 5

  datatype Status = ACTIVE | PAUSED | PROMOTED | ROLLED_BACK

  datatype Deployment = Deployment(
    status: Status, currentTrafficPct: int, maxTrafficPct: int, incrementStepPct: int,
    autoRollbackEnabled: bool, currentWindow: nat)

  datatype JobId = ForWindow(window: nat) | Retry(window: nat, at: int)

  datatype Job = Job(id: JobId, window: nat)

  datatype Gate = Gate(window: nat, rules: seq<Rule>, result: GateResult)

  datatype Promotion = PROMOTE | ROLLBACK

  /** The queue drops a job whose id it has seen before. */
  datatype Queue = Queue(waiting: seq<Job>, seen: set<JobId>)
  {
    function Add(job: Job): Queue {
      if job.id in seen then this else Queue(waiting + [job], seen + {job.id})
    }
  }

  /** A job with a new id comes last, and one with an id seen before is dropped. */
  lemma AddMeans(q: Queue, job: Job, other: JobId)
    ensures q.Add(job).waiting == if job.id in q.seen then q.waiting else q.waiting + [job]
    ensures other in q.Add(job).seen <==> other in q.seen || other == job.id
  {
  }

  datatype System = System(deployment: Deployment, queue: Queue, gates: seq<Gate>, promotions: seq<Promotion>)

  /** A gate of the latest window, as the query by descending window number returns it. */
  function Latest(gates: seq<Gate>): (g: Gate)
    requires gates != []
    ensures g in gates && forall h :: h in gates ==> h.window <= g.window
  {
    if |gates| == 1 then gates[0]
    else
      var g := Latest(gates[..|gates| - 1]);
      if gates[|gates| - 1].window > g.window then gates[|gates| - 1] else g
  }

  function Rules(gates: seq<Gate>): seq<Rule> {
    if gates == [] then DEFAULT_RULES else Latest(gates).rules
  }

  function NextTraffic(d: Deployment): int {
    if d.currentTrafficPct + d.incrementStepPct <= d.maxTrafficPct
    then d.currentTrafficPct + d.incrementStepPct else d.maxTrafficPct
  }

  /** What a gate result does to the deployment, the queue and the promotions, if `writes` more writes go through. */
  function Decide(s: System, window: nat, result: GateResult, writes: nat): System {
    var d := s.deployment;
    if writes == 0 then s
    else if result == FAIL && d.autoRollbackEnabled then
      s.(deployment := d.(status := ROLLED_BACK, currentTrafficPct := 0),
         promotions := s.promotions + if writes == 1 then [] else [ROLLBACK])
    else if result == PASS then
      if NextTraffic(d) >= d.maxTrafficPct then
        s.(deployment := d.(status := PROMOTED, currentTrafficPct := 100),
           promotions := s.promotions + if writes == 1 then [] else [PROMOTE])
      else
        s.(deployment := d.(currentTrafficPct := NextTraffic(d), currentWindow := window + 1),
           queue := if writes == 1 then s.queue else s.queue.Add(Job(ForWindow(window + 1), window + 1)))
    else if result == FAIL then s.(deployment := d.(status := PAUSED))
    else s
  }

  /** One evaluation of a job taken from the queue at time `now`; after `writes` writes an access throws. */
  function Evaluated(s: System, job: Job, metrics: Metrics, executions: nat, now: int, writes: nat): System {
    if s.deployment.status != ACTIVE || writes == 0 then s
    else
      var rules := Rules(s.gates);
      if executions < MIN_EXECUTIONS_FOR_GATE then
        s.(gates := s.gates + [Gate(job.window, rules, PENDING)],
           queue := if writes == 1 then s.queue else s.queue.Add(Job(Retry(job.window, now), job.window)))
      else
        var result := Evaluate(rules, Some(metrics));
        Decide(s.(gates := s.gates + [Gate(job.window, rules, result)]), job.window, result, writes - 1)
  }

  /** The writes of a whole evaluation: the gate, the deployment, and a promotion or a job. */
  function WritesOf(s: System, metrics: Metrics, executions: nat): nat {
    if s.deployment.status != ACTIVE then 0
    else if executions < MIN_EXECUTIONS_FOR_GATE then 2
    else
      match Evaluate(Rules(s.gates), Some(metrics))
      case PASS => 3
      case FAIL => if s.deployment.autoRollbackEnabled then 3 else 2
      case _ => 1
  }

  class Evaluator {
    var deployment: Deployment
    var queue: Queue
    var gates: seq<Gate>
    var promotions: seq<Promotion>

    function State(): System
      reads this
    {
      System(deployment, queue, gates, promotions)
    }

    constructor (s: System)
      ensures State() == s
    {
      deployment, queue, gates, promotions := s.deployment, s.queue, s.gates, s.promotions;
    }

    method Act(window: nat, result: GateResult, writes: nat)
      modifies this`deployment, this`queue, this`promotions
      ensures State() == Decide(old(State()), window, result, writes)
    {
      if writes == 0 {
        return;
      }
      if result == FAIL && deployment.autoRollbackEnabled {
        deployment := deployment.(status := ROLLED_BACK, currentTrafficPct := 0);
        if writes > 1 {
          promotions := promotions + [ROLLBACK];
        }
      } else if result == PASS {
        var next := deployment.currentTrafficPct + deployment.incrementStepPct;
        if next > deployment.maxTrafficPct {
          next := deployment.maxTrafficPct;
        }
        if next >= deployment.maxTrafficPct {
          deployment := deployment.(status := PROMOTED, currentTrafficPct := 100);
          if writes > 1 {
            promotions := promotions + [PROMOTE];
          }
        } else {
          deployment := deployment.(currentTrafficPct := next, currentWindow := window + 1);
          if writes > 1 {
            queue := queue.Add(Job(ForWindow(window + 1), window + 1));
          }
        }
      } else if result == FAIL {
        deployment := deployment.(status := PAUSED);
      }
    }

    /** An evaluation in which an access throws once `writes` writes have gone through, if there are that many. */
    method RunCanaryEvaluator(job: Job, metrics: Metrics, executions: nat, now: int, writes: nat)
      returns (gate: Option<GateResult>)
      modifies this
      ensures State() == Evaluated(old(State()), job, metrics, executions, now, writes)
      ensures gate == None <==> old(deployment.status) != ACTIVE || writes == 0
      ensures gate.Some? ==> gates == old(gates) + [Gate(job.window, Rules(old(gates)), gate.value)]
    {
      if deployment.status != ACTIVE || writes == 0 {
        return None;
      }
      var rules := if gates != [] then Latest(gates).rules else DEFAULT_RULES;
      if executions < MIN_EXECUTIONS_FOR_GATE {
        gates := gates + [Gate(job.window, rules, PENDING)];
        if writes > 1 {
          queue := queue.Add(Job(Retry(job.window, now), job.window));
        }
        return Some(PENDING);
      }
      var result := Evaluate(rules, Some(metrics));
      gates := gates + [Gate(job.window, rules, result)];
      Act(job.window, result, writes - 1);
      return Some(result);
    }
  }
}
