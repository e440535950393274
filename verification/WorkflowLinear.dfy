/** Node lists without any dependency: they run one by one, as declared. */
module WorkflowLinear {
  import opened Wrappers
  import opened WorkflowNodes
  import opened WorkflowPlanner
  import opened WorkflowRouter
  import opened WorkflowRunner

  /** No node depends on another. */
  ghost predicate Independent(nodes: seq<Node>) {
    forall i :: 0 <= i < |nodes| ==> nodes[i].dependsOn == []
  }

  /** Each node is a level of its own, in order of declaration. */
  lemma IndependentPlan(nodes: seq<Node>, r: Result<seq<seq<Node>>, seq<string>>)
    requires Independent(nodes) && PlanOutcome(nodes, r)
    ensures r.Success? && |r.value| == |nodes|
    ensures forall k :: 0 <= k < |nodes| ==> r.value[k] == [nodes[k]]
  {
  }

  /** The nodes executed one after the other, up to the first that fails, or that asks a person. */
  function OneByOne(exec: Executor, nodes: seq<Node>, state: State): RunResult {
    if nodes == [] then RunResult(SUCCEEDED, [], state)
    else
      var node := nodes[0];
      match exec(node, state)
      case Failure(_) => RunResult(FAILED, [NodeResult(node.id, false)], state)
      case Success(output) =>
        var result, after := NodeResult(node.id, true), state[node.id := output];
        if node.kind.Human? then RunResult(BLOCKED, [result], after)
        else
          var rest := OneByOne(exec, nodes[1..], after);
          RunResult(rest.status, [result] + rest.results, rest.state)
  }

  lemma SingleLevel(exec: Executor, node: Node, state: State)
    ensures LevelOutcomes(exec, [node], state) == [exec(node, state)]
    ensures LevelState(exec, [node], state) ==
            if exec(node, state).Success? then state[node.id := exec(node, state).value] else state
  {
    var level, outcomes := [node], [exec(node, state)];
    assert Written(level, [], AtOnce(level, 0), 0) == map[];
    assert Started(exec, level, 0, state) == state;
    StartStep(exec, level, 0, state);
    assert LevelOutcomes(exec, level, state) == outcomes;
    assert Outputs(level, outcomes, 0) == map[];
  }

  lemma {:induction false} RunIsOneByOne(exec: Executor, nodes: seq<Node>, levels: seq<seq<Node>>, k: nat, state: State)
    requires |levels| == |nodes| && forall i :: 0 <= i < |nodes| ==> levels[i] == [nodes[i]]
    requires k <= |nodes|
    ensures RunFrom(exec, levels, k, state) == OneByOne(exec, nodes[k..], state)
    decreases |nodes| - k
  {
    if k < |nodes| {
      var node, outcomes := nodes[k], [exec(nodes[k], state)];
      SingleLevel(exec, node, state);
      assert nodes[k..][1..] == nodes[k + 1..];
      assert Results([node], outcomes) == [NodeResult(node.id, outcomes[0].Success?)];
      if exec(node, state).Success? && !node.kind.Human? {
        RunIsOneByOne(exec, nodes, levels, k + 1, state[node.id := exec(node, state).value]);
      }
    }
  }

  lemma {:induction false} ResultsArePrefix(exec: Executor, nodes: seq<Node>, state: State)
    ensures var r := OneByOne(exec, nodes, state);
            && |r.results| <= |nodes| && (r.status == SUCCEEDED ==> |r.results| == |nodes|)
            && forall i :: 0 <= i < |r.results| ==> r.results[i].nodeId == nodes[i].id
    decreases |nodes|
  {
    if nodes != [] && exec(nodes[0], state).Success? {
      ResultsArePrefix(exec, nodes[1..], state[nodes[0].id := exec(nodes[0], state).value]);
    }
  }

  /** The run of such a list ends like its nodes executed one by one, and its results are for the first of them. */
  lemma IndependentRun(exec: Executor, nodes: seq<Node>, plan: Result<seq<seq<Node>>, seq<string>>, state: State)
    requires Independent(nodes) && PlanOutcome(nodes, plan)
    ensures plan.Success?
    ensures var r := RunFrom(exec, plan.value, 0, state);
            && r == OneByOne(exec, nodes, state)
            && |r.results| <= |nodes| && (r.status == SUCCEEDED ==> |r.results| == |nodes|)
            && forall i :: 0 <= i < |r.results| ==> r.results[i].nodeId == nodes[i].id
  {
    IndependentPlan(nodes, plan);
    RunIsOneByOne(exec, nodes, plan.value, 0, state);
    assert nodes[0..] == nodes;
    ResultsArePrefix(exec, nodes, state);
  }
}
