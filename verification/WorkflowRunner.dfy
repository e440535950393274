/**
 Running a plan level by level. The nodes of a level are all started, in order,
 before any of them that has to wait can finish; those finish in any order.
 */
module WorkflowRunner {
  import opened Wrappers
  import opened WorkflowNodes
  import opened WorkflowGraph
  import opened WorkflowPlanner
  import opened WorkflowPlans
  import opened WorkflowRouter

  /** How a node that starts on a state turns out. */
  type Executor = (Node, State) -> Outcome

  datatype Status = SUCCEEDED | FAILED | BLOCKED

  datatype NodeResult = NodeResult(nodeId: string, success: bool)

  datatype RunResult = RunResult(status: Status, results: seq<NodeResult>, state: State)

  ghost predicate DistinctIds(level: seq<Node>) {
    forall i, j :: 0 <= i < j < |level| ==> level[i].id != level[j].id
  }

  /** The outputs of the first `n` nodes that succeeded, as far as their positions are in `at`. */
  ghost function Written(level: seq<Node>, outcomes: seq<Outcome>, at: set<nat>, n: nat): State
    requires n <= |outcomes| <= |level|
  {
    if n == 0 then map[]
    else
      var w := Written(level, outcomes, at, n - 1);
      if n - 1 in at && outcomes[n - 1].Success? then w[level[n - 1].id := outcomes[n - 1].value] else w
  }

  /** The outputs of the first `n` nodes that succeeded. */
  function Outputs(level: seq<Node>, outcomes: seq<Outcome>, n: nat): State
    requires n <= |outcomes| <= |level|
  {
    if n == 0 then map[]
    else
      var w := Outputs(level, outcomes, n - 1);
      if outcomes[n - 1].Success? then w[level[n - 1].id := outcomes[n - 1].value] else w
  }

  ghost function AtOnce(level: seq<Node>, n: nat): set<nat>
    requires n <= |level|
  {
    set i | 0 <= i < n && WritesAtOnce(level[i])
  }

  ghost function Waiting(level: seq<Node>): set<nat> {
    set i | 0 <= i < |level| && !WritesAtOnce(level[i])
  }

  /** The outcomes of the first `n` nodes of a level, each started on what its predecessors wrote at once. */
  ghost function Outcomes(exec: Executor, level: seq<Node>, n: nat, state: State): (r: seq<Outcome>)
    requires n <= |level|
    ensures |r| == n
  {
    if n == 0 then []
    else
      var before := Outcomes(exec, level, n - 1, state);
      before + [exec(level[n - 1], state + Written(level, before, AtOnce(level, n - 1), n - 1))]
  }

  /** The state once the first `n` nodes have been started. */
  ghost function Started(exec: Executor, level: seq<Node>, n: nat, state: State): State
    requires n <= |level|
  {
    state + Written(level, Outcomes(exec, level, n, state), AtOnce(level, n), n)
  }

  ghost function LevelOutcomes(exec: Executor, level: seq<Node>, state: State): seq<Outcome>
  {
    Outcomes(exec, level, |level|, state)
  }

  /** The state once every node of the level has finished, in whatever order. */
  ghost function LevelState(exec: Executor, level: seq<Node>, state: State): State
  {
    state + Outputs(level, LevelOutcomes(exec, level, state), |level|)
  }

  /** One result for each node, which says whether the node succeeded. */
  function Results(level: seq<Node>, outcomes: seq<Outcome>): (r: seq<NodeResult>)
    requires |outcomes| == |level|
    ensures |r| == |level|
    ensures forall i :: 0 <= i < |level| ==> r[i].nodeId == level[i].id && (r[i].success <==> outcomes[i].Success?)
  {
    seq(|level|, i requires 0 <= i < |level| => NodeResult(level[i].id, outcomes[i].Success?))
  }

  predicate AnyFailed(outcomes: seq<Outcome>) {
    exists i :: 0 <= i < |outcomes| && outcomes[i].Failure?
  }

  predicate AnyPaused(level: seq<Node>, outcomes: seq<Outcome>)
    requires |outcomes| == |level|
  {
    exists i :: 0 <= i < |level| && Pauses(level[i], outcomes[i])
  }

  /** The run of the levels from `k` on: it stops after a level with a failure, or else with a pause. */
  ghost function RunFrom(exec: Executor, levels: seq<seq<Node>>, k: nat, state: State): RunResult
    requires k <= |levels|
    decreases |levels| - k
  {
    if k == |levels| then RunResult(SUCCEEDED, [], state)
    else
      var outcomes := LevelOutcomes(exec, levels[k], state);
      var after := LevelState(exec, levels[k], state);
      var results := Results(levels[k], outcomes);
      if AnyFailed(outcomes) then RunResult(FAILED, results, after)
      else if AnyPaused(levels[k], outcomes) then RunResult(BLOCKED, results, after)
      else
        var rest := RunFrom(exec, levels, k + 1, after);
        rest.(results := results + rest.results)
  }

  lemma {:induction false} WrittenBelow(level: seq<Node>, a: seq<Outcome>, b: seq<Outcome>, s: set<nat>, t: set<nat>,
                                        n: nat)
    requires n <= |a| <= |level| && n <= |b| <= |level|
    requires forall i :: 0 <= i < n ==> a[i] == b[i] && (i in s <==> i in t)
    ensures Written(level, a, s, n) == Written(level, b, t, n)
  {
    if n > 0 {
      WrittenBelow(level, a, b, s, t, n - 1);
    }
  }

  lemma {:induction false} WrittenKeys(level: seq<Node>, outcomes: seq<Outcome>, at: set<nat>, n: nat, id: string)
    requires n <= |outcomes| <= |level|
    requires id in Written(level, outcomes, at, n)
    ensures exists i :: 0 <= i < n && i in at && outcomes[i].Success? && level[i].id == id
  {
    if !(n - 1 in at && outcomes[n - 1].Success? && level[n - 1].id == id) {
      WrittenKeys(level, outcomes, at, n - 1, id);
    }
  }

  lemma {:induction false} WrittenAdds(level: seq<Node>, outcomes: seq<Outcome>, at: set<nat>, i: nat, n: nat)
    requires i < n <= |outcomes| <= |level| && DistinctIds(level) && i !in at
    ensures Written(level, outcomes, at + {i}, n) ==
            if outcomes[i].Success? then Written(level, outcomes, at, n)[level[i].id := outcomes[i].value]
            else Written(level, outcomes, at, n)
  {
    if i == n - 1 {
      WrittenBelow(level, outcomes, outcomes, at + {i}, at, n - 1);
    } else {
      WrittenAdds(level, outcomes, at, i, n - 1);
      assert level[i].id != level[n - 1].id;
    }
  }

  lemma {:induction false} WrittenAll(level: seq<Node>, outcomes: seq<Outcome>, s: set<nat>, t: set<nat>, n: nat)
    requires n <= |outcomes| <= |level| && DistinctIds(level)
    requires s !! t && forall i :: 0 <= i < n ==> i in s || i in t
    ensures Written(level, outcomes, s, n) + Written(level, outcomes, t, n) == Outputs(level, outcomes, n)
  {
    if n > 0 {
      WrittenAll(level, outcomes, s, t, n - 1);
      var id := level[n - 1].id;
      if id in Written(level, outcomes, t, n - 1) {
        WrittenKeys(level, outcomes, t, n - 1, id);
      }
    }
  }

  /** Starting one more node extends the outcomes and what has been written at once. */
  lemma StartStep(exec: Executor, level: seq<Node>, i: nat, before: State)
    requires i < |level|
    ensures var outcome := exec(level[i], Started(exec, level, i, before));
            && Outcomes(exec, level, i + 1, before) == Outcomes(exec, level, i, before) + [outcome]
            && Started(exec, level, i + 1, before) ==
               (if WritesAtOnce(level[i]) && outcome.Success?
                then Started(exec, level, i, before)[level[i].id := outcome.value]
                else Started(exec, level, i, before))
  {
    WrittenBelow(level, Outcomes(exec, level, i, before), Outcomes(exec, level, i + 1, before),
                 AtOnce(level, i), AtOnce(level, i + 1), i);
  }

  lemma MergeAssociates(a: State, b: State, c: State)
    ensures (a + b) + c == a + (b + c)
  {
  }

  lemma FinishedState(exec: Executor, level: seq<Node>, before: State, outcomes: seq<Outcome>)
    requires DistinctIds(level) && outcomes == LevelOutcomes(exec, level, before)
    ensures Started(exec, level, |level|, before) + Written(level, outcomes, Waiting(level), |level|) ==
            LevelState(exec, level, before)
  {
    var once := Written(level, outcomes, AtOnce(level, |level|), |level|);
    var late := Written(level, outcomes, Waiting(level), |level|);
    assert once + late == Outputs(level, outcomes, |level|) by {
      WrittenAll(level, outcomes, AtOnce(level, |level|), Waiting(level), |level|);
    }
    MergeAssociates(before, once, late);
  }

  lemma {:induction false} NothingWritten(level: seq<Node>, outcomes: seq<Outcome>, n: nat)
    requires n <= |outcomes| <= |level|
    ensures Written(level, outcomes, {}, n) == map[]
  {
    if n > 0 {
      NothingWritten(level, outcomes, n - 1);
    }
  }

  const INITIAL_KEY := "__initial__"

  /** The execution context whose state the nodes of a run share. */
  class ExecutionContext {
    var state: State

    constructor (initial: Json)
      ensures state == map[INITIAL_KEY := initial]
    {
      state := map[INITIAL_KEY := initial];
    }

    /** Starts the nodes in order; those that need not wait write their output right away. */
    method StartAll(exec: Executor, level: seq<Node>) returns (outcomes: seq<Outcome>)
      modifies this
      ensures outcomes == LevelOutcomes(exec, level, old(state))
      ensures state == Started(exec, level, |level|, old(state))
    {
      outcomes := [];
      for i := 0 to |level|
        invariant outcomes == Outcomes(exec, level, i, old(state))
        invariant state == Started(exec, level, i, old(state))
      {
        StartStep(exec, level, i, old(state));
        var outcome := exec(level[i], state);
        outcomes := outcomes + [outcome];
        if WritesAtOnce(level[i]) && outcome.Success? {
          state := state[level[i].id := outcome.value];
        }
      }
    }

    /** The nodes that wait finish one by one, the next being any of those still pending. */
    method FinishAll(level: seq<Node>, outcomes: seq<Outcome>, waiting: set<nat>)
      requires DistinctIds(level) && |outcomes| == |level|
      requires forall i :: i in waiting ==> i < |level|
      modifies this
      ensures state == old(state) + Written(level, outcomes, waiting, |level|)
    {
      var pending := waiting;
      NothingWritten(level, outcomes, |level|);
      assert waiting - pending == {};
      while pending != {}
        invariant pending <= waiting
        invariant state == old(state) + Written(level, outcomes, waiting - pending, |level|)
      {
        var i :| i in pending;
        WrittenAdds(level, outcomes, waiting - pending, i, |level|);
        assert waiting - (pending - {i}) == (waiting - pending) + {i};
        pending := pending - {i};
        if outcomes[i].Success? {
          state := state[level[i].id := outcomes[i].value];
        }
      }
      assert waiting - pending == waiting;
    }

    /** One level: whatever the order of completion, its outcomes and the state after it are fixed. */
    method ExecuteLevel(exec: Executor, level: seq<Node>) returns (outcomes: seq<Outcome>)
      requires DistinctIds(level)
      modifies this
      ensures outcomes == LevelOutcomes(exec, level, old(state))
      ensures state == LevelState(exec, level, old(state))
    {
      outcomes := StartAll(exec, level);
      FinishAll(level, outcomes, set i | 0 <= i < |level| && !WritesAtOnce(level[i]));
      FinishedState(exec, level, old(state), outcomes);
    }
  }

  lemma PlanHasDistinctLevels(nodes: seq<Node>, plan: Result<seq<seq<Node>>, seq<string>>, k: nat)
    requires PlanOutcome(nodes, plan) && plan.Success? && k < |plan.value|
    ensures DistinctIds(plan.value[k])
  {
    if HasDependency(nodes) {
      LevelMembers(ById(nodes), Order(nodes), plan.value, k);
    }
  }

  function Prefixed(results: seq<NodeResult>, r: RunResult): RunResult {
    r.(results := results + r.results)
  }

  method PushResults(earlier: seq<NodeResult>, level: seq<Node>, outcomes: seq<Outcome>)
    returns (nodeResults: seq<NodeResult>)
    requires |outcomes| == |level|
    ensures nodeResults == earlier + Results(level, outcomes)
  {
    nodeResults := earlier;
    for i := 0 to |level|
      invariant nodeResults == earlier + Results(level, outcomes)[..i]
    {
      nodeResults := nodeResults + [NodeResult(level[i].id, outcomes[i].Success?)];
    }
    assert Results(level, outcomes)[..|level|] == Results(level, outcomes);
  }

  lemma PrefixedTwice(a: seq<NodeResult>, b: seq<NodeResult>, r: RunResult)
    ensures Prefixed(a, Prefixed(b, r)) == Prefixed(a + b, r)
  {
    assert a + (b + r.results) == (a + b) + r.results;
  }

  /** One round of the run, after the results of the earlier levels. */
  lemma RunStep(exec: Executor, levels: seq<seq<Node>>, k: nat, state: State, earlier: seq<NodeResult>)
    requires k < |levels|
    ensures var outcomes, after := LevelOutcomes(exec, levels[k], state), LevelState(exec, levels[k], state);
            var results := earlier + Results(levels[k], outcomes);
            Prefixed(earlier, RunFrom(exec, levels, k, state)) ==
              if AnyFailed(outcomes) then RunResult(FAILED, results, after)
              else if AnyPaused(levels[k], outcomes) then RunResult(BLOCKED, results, after)
              else Prefixed(results, RunFrom(exec, levels, k + 1, after))
  {
    var outcomes, after := LevelOutcomes(exec, levels[k], state), LevelState(exec, levels[k], state);
    PrefixedTwice(earlier, Results(levels[k], outcomes), RunFrom(exec, levels, k + 1, after));
  }

  method RunLevels(exec: Executor, levels: seq<seq<Node>>, initial: Json) returns (r: RunResult)
    requires forall k :: 0 <= k < |levels| ==> DistinctIds(levels[k])
    ensures r == RunFrom(exec, levels, 0, map[INITIAL_KEY := initial])
  {
    var ctx := new ExecutionContext(initial);
    var nodeResults: seq<NodeResult> := [];
    ghost var start := ctx.state;
    for k := 0 to |levels|
      invariant RunFrom(exec, levels, 0, start) == Prefixed(nodeResults, RunFrom(exec, levels, k, ctx.state))
    {
      RunStep(exec, levels, k, ctx.state, nodeResults);
      var outcomes := ctx.ExecuteLevel(exec, levels[k]);
      nodeResults := PushResults(nodeResults, levels[k], outcomes);
      if AnyFailed(outcomes) {
        return RunResult(FAILED, nodeResults, ctx.state);
      }
      if AnyPaused(levels[k], outcomes) {
        return RunResult(BLOCKED, nodeResults, ctx.state);
      }
    }
    return RunResult(SUCCEEDED, nodeResults, ctx.state);
  }

  /** Plans the nodes and runs the plan; nothing runs when planning fails. */
  method Run(exec: Executor, nodes: seq<Node>, initial: Json)
    returns (plan: Result<seq<seq<Node>>, seq<string>>, result: Option<RunResult>)
    ensures PlanOutcome(nodes, plan)
    ensures result == if plan.Success? then Some(RunFrom(exec, plan.value, 0, map[INITIAL_KEY := initial])) else None
  {
    plan := PlanExecutionLevels(nodes);
    match plan {
      case Failure(_) => result := None;
      case Success(levels) =>
        forall k | 0 <= k < |levels|
          ensures DistinctIds(levels[k])
        {
          PlanHasDistinctLevels(nodes, plan, k);
        }
        var r := RunLevels(exec, levels, initial);
        result := Some(r);
    }
  }
}
