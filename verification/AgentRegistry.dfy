/** An agent's success rate as a moving average of its invocations, and the status that follows from it. */
module AgentRegistry {
  import opened Wrappers

  datatype Status = AVAILABLE | DEGRADED | UNAVAILABLE | DRAINING

  datatype Agent = Agent(totalInvocations: nat, lastSuccessRate: Option<real>, status: Status)

  function Rate(a: Agent): real {
    if a.lastSuccessRate.Some? then a.lastSuccessRate.value else 1.0
  }

  function Blended(rate: real, success: bool): real {
    rate * 0.9 + (if success then 0.1 else 0.0)
  }

  function Recorded(a: Agent, success: bool): Agent {
    var rate := Blended(Rate(a), success);
    Agent(a.totalInvocations + 1, Some(rate), if rate < 0.5 then DEGRADED else AVAILABLE)
  }

  function Run(a: Agent, outcomes: seq<bool>): Agent {
    if outcomes == [] then a else Recorded(Run(a, outcomes[..|outcomes| - 1]), outcomes[|outcomes| - 1])
  }

  /** The registry of one tenant; an invocation of an unknown agent is ignored. */
  class AgentRegistryService {
    var agents: map<string, Agent>

    constructor (agents: map<string, Agent>)
      ensures this.agents == agents
    {
      this.agents := agents;
    }

    method RecordInvocation(key: string, success: bool)
      modifies this
      ensures agents == if key in old(agents) then old(agents)[key := Recorded(old(agents)[key], success)]
              else old(agents)
    {
      if key !in agents {
        return;
      }
      var agent := agents[key];
      var total := agent.totalInvocations + 1;
      var currentRate := if agent.lastSuccessRate.Some? then agent.lastSuccessRate.value else 1.0;
      var newRate := currentRate * 0.9 + (if success then 1.0 else 0.0) * 0.1;
      agents := agents[key := Agent(total, Some(newRate), if newRate < 0.5 then DEGRADED else AVAILABLE)];
    }
  }

  predicate InRange(rate: real) {
    0.0 <= rate <= 1.0
  }

  lemma {:induction false} RateInRange(a: Agent, outcomes: seq<bool>)
    requires InRange(Rate(a))
    ensures InRange(Rate(Run(a, outcomes)))
  {
    if outcomes != [] {
      RateInRange(a, outcomes[..|outcomes| - 1]);
    }
  }

  /** What is left of a distance after so many calls: nine tenths of it each time. */
  function Faded(distance: real, calls: nat): real {
    if calls == 0 then distance else Faded(distance, calls - 1) * 0.9
  }

  /** The same outcomes bring two rates together exactly that fast, whatever the outcomes are. */
  lemma {:induction false} HistoryFades(a: Agent, b: Agent, outcomes: seq<bool>)
    ensures Rate(Run(a, outcomes)) - Rate(Run(b, outcomes)) == Faded(Rate(a) - Rate(b), |outcomes|)
  {
    if outcomes != [] {
      HistoryFades(a, b, outcomes[..|outcomes| - 1]);
    }
  }

  /** Turning failures into successes never lowers the rate. */
  lemma {:induction false} SuccessesOnlyHelp(a: Agent, fewer: seq<bool>, more: seq<bool>)
    requires |fewer| == |more| && forall i :: 0 <= i < |fewer| && fewer[i] ==> more[i]
    ensures Rate(Run(a, fewer)) <= Rate(Run(a, more))
  {
    if fewer != [] {
      SuccessesOnlyHelp(a, fewer[..|fewer| - 1], more[..|more| - 1]);
    }
  }

  function Repeat(success: bool, n: nat): seq<bool> {
    if n == 0 then [] else Repeat(success, n - 1) + [success]
  }

  /** A streak pulls the rate towards one or zero, by a tenth of the distance each time. */
  lemma {:induction false} Streak(a: Agent, before: seq<bool>, success: bool, n: nat)
    ensures var goal := if success then 1.0 else 0.0;
            Rate(Run(a, before + Repeat(success, n))) - goal == Faded(Rate(Run(a, before)) - goal, n)
  {
    if n == 0 {
      assert before + Repeat(success, 0) == before;
    } else {
      Streak(a, before, success, n - 1);
      var all := before + Repeat(success, n);
      assert all[..|all| - 1] == before + Repeat(success, n - 1) && all[|all| - 1] == success;
    }
  }

  lemma FadedBySixAndSeven(d: real)
    ensures Faded(d, 6) == d * 0.531441 && Faded(d, 7) == d * 0.4782969
  {
    assert Faded(d, 1) == d * 0.9 && Faded(d, 2) == d * 0.81 && Faded(d, 3) == d * 0.729;
    assert Faded(d, 4) == d * 0.6561 && Faded(d, 5) == d * 0.59049;
  }

  lemma StatusFollowsRate(a: Agent, outcomes: seq<bool>)
    requires outcomes != []
    ensures Run(a, outcomes).status == if Rate(Run(a, outcomes)) < 0.5 then DEGRADED else AVAILABLE
  {
  }

  /** Whatever came before, seven failures in a row degrade an agent and seven successes restore it. */
  lemma SevenInARowDecide(a: Agent, before: seq<bool>, success: bool)
    requires InRange(Rate(a))
    ensures Run(a, before + Repeat(success, 7)).status == if success then AVAILABLE else DEGRADED
  {
    var r := Rate(Run(a, before));
    RateInRange(a, before);
    Streak(a, before, success, 7);
    FadedBySixAndSeven(Rate(Run(a, before)) - if success then 1.0 else 0.0);
    assert Repeat(success, 7) != [];
    StatusFollowsRate(a, before + Repeat(success, 7));
  }

  /** Six in a row decide exactly when the rate was close enough already. */
  lemma SixInARowDecideIff(a: Agent, before: seq<bool>, success: bool)
    ensures var r := Rate(Run(a, before));
            Run(a, before + Repeat(success, 6)).status == (if success then AVAILABLE else DEGRADED)
            <==> if success then r * 0.531441 >= 0.031441 else r * 0.531441 < 0.5
  {
    Streak(a, before, success, 6);
    FadedBySixAndSeven(Rate(Run(a, before)) - if success then 1.0 else 0.0);
    assert Repeat(success, 6) != [];
    StatusFollowsRate(a, before + Repeat(success, 6));
  }

  /** So seven is exact: an agent never invoked before survives six failures. */
  lemma FreshAgentSurvivesSixFailures()
    ensures var newcomer := Agent(0, None, AVAILABLE);
            Run(newcomer, Repeat(false, 6)).status == AVAILABLE && Run(newcomer, Repeat(false, 7)).status == DEGRADED
  {
    var newcomer := Agent(0, None, AVAILABLE);
    SixInARowDecideIff(newcomer, [], false);
    SevenInARowDecide(newcomer, [], false);
    assert [] + Repeat(false, 6) == Repeat(false, 6) && [] + Repeat(false, 7) == Repeat(false, 7);
    assert Repeat(false, 6) != [];
    StatusFollowsRate(newcomer, Repeat(false, 6));
  }

  /** One recorded invocation takes an agent out of the states an operator put it in. */
  lemma InvocationOverridesOperator(a: Agent, success: bool)
    ensures Recorded(a, success).status != UNAVAILABLE && Recorded(a, success).status != DRAINING
  {
  }
}
