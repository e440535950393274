/** What may be relied on when a level of a plan starts. */
module WorkflowSafety {
  import opened Wrappers
  import opened Sequences
  import opened WorkflowNodes
  import opened WorkflowGraph
  import opened WorkflowPlanner
  import opened WorkflowPlans
  import opened WorkflowRouter
  import opened WorkflowRunner
  import opened WorkflowEquivalence

  /** One level of a run: the state it starts in, how its nodes turn out, and the state it leaves. */
  datatype Round = Round(before: State, outcomes: seq<Outcome>, after: State)

  ghost predicate IsRound(exec: Executor, level: seq<Node>, round: Round) {
    && |round.outcomes| == |level|
    && round.outcomes == LevelOutcomes(exec, level, round.before)
    && round.after == LevelState(exec, level, round.before)
  }

  /** A node of the level failed. */
  ghost predicate Fails(outcomes: seq<Outcome>) {
    exists i :: 0 <= i < |outcomes| && outcomes[i].Failure?
  }

  /** A person has been asked. */
  ghost predicate Waits(level: seq<Node>, outcomes: seq<Outcome>) {
    exists i :: 0 <= i < |level| && i < |outcomes| && level[i].kind.Human? && outcomes[i].Success?
  }

  /** The run goes on after the round: no node failed, and nobody has been asked. */
  ghost predicate Passes(level: seq<Node>, outcomes: seq<Outcome>) {
    |outcomes| == |level| && !Fails(outcomes) && !Waits(level, outcomes)
  }

  /** Rounds of the levels from `k` on, each starting where the one before ended; only the last may stop the run. */
  ghost predicate IsHistory(exec: Executor, levels: seq<seq<Node>>, k: nat, rounds: seq<Round>, initial: State) {
    && k + |rounds| <= |levels|
    && (forall i {:trigger rounds[i]} :: 0 <= i < |rounds| ==> IsRound(exec, levels[k + i], rounds[i]))
    && (forall i {:trigger rounds[i]} :: 0 <= i < |rounds| - 1 ==> Passes(levels[k + i], rounds[i].outcomes))
    && (forall i, j :: 0 <= i < j < |rounds| && j == i + 1 ==> rounds[j].before == rounds[i].after)
    && (rounds != [] ==> rounds[0].before == initial)
  }

  function HistoryResults(levels: seq<seq<Node>>, k: nat, rounds: seq<Round>): seq<NodeResult>
    requires k + |rounds| <= |levels|
    requires forall i {:trigger rounds[i]} :: 0 <= i < |rounds| ==> |rounds[i].outcomes| == |levels[k + i]|
    decreases |rounds|
  {
    if rounds == [] then []
    else
      assert forall i :: 0 <= i < |rounds| - 1 ==> rounds[1..][i] == rounds[i + 1];
      Results(levels[k], rounds[0].outcomes) + HistoryResults(levels, k + 1, rounds[1..])
  }

  lemma HistoryGrows(exec: Executor, levels: seq<seq<Node>>, k: nat, first: Round, rest: seq<Round>)
    requires k < |levels| && IsRound(exec, levels[k], first) && Passes(levels[k], first.outcomes)
    requires IsHistory(exec, levels, k + 1, rest, first.after)
    ensures IsHistory(exec, levels, k, [first] + rest, first.before)
  {
    var rounds := [first] + rest;
    forall i | 0 <= i < |rounds|
      ensures IsRound(exec, levels[k + i], rounds[i])
      ensures i < |rounds| - 1 ==> Passes(levels[k + i], rounds[i].outcomes)
    {
      if i > 0 {
        assert rounds[i] == rest[i - 1];
      }
    }
    forall i, j | 0 <= i < j < |rounds| && j == i + 1
      ensures rounds[j].before == rounds[i].after
    {
      if i > 0 {
        assert rest[j - 1].before == rest[i - 1].after;
      }
    }
  }

  /** How a run that came to the round ends there, if it does. */
  function StatusAfter(level: seq<Node>, outcomes: seq<Outcome>): (s: Option<Status>)
    requires |outcomes| == |level|
    ensures s == Some(FAILED) <==> Fails(outcomes)
    ensures s == Some(BLOCKED) <==> !Fails(outcomes) && Waits(level, outcomes)
    ensures s == None <==> Passes(level, outcomes)
  {
    if AnyFailed(outcomes) then Some(FAILED) else if AnyPaused(level, outcomes) then Some(BLOCKED) else None
  }

  /** One round of a run. */
  lemma RunRound(exec: Executor, levels: seq<seq<Node>>, k: nat, state: State)
    requires k < |levels|
    ensures var outcomes, after := LevelOutcomes(exec, levels[k], state), LevelState(exec, levels[k], state);
            var r, here := RunFrom(exec, levels, k, state), Results(levels[k], outcomes);
            match StatusAfter(levels[k], outcomes)
            case Some(status) => r == RunResult(status, here, after)
            case None =>
              var rest := RunFrom(exec, levels, k + 1, after);
              r == RunResult(rest.status, here + rest.results, rest.state)
  {
  }

  /** How the run that left these rounds ended. */
  ghost predicate EndsAs(levels: seq<seq<Node>>, k: nat, rounds: seq<Round>, status: Status)
    requires k + |rounds| <= |levels|
  {
    && (status == FAILED <==> rounds != [] && Fails(rounds[|rounds| - 1].outcomes))
    && (status == BLOCKED <==>
        rounds != [] && !Fails(rounds[|rounds| - 1].outcomes)
        && Waits(levels[k + |rounds| - 1], rounds[|rounds| - 1].outcomes))
    && (status == SUCCEEDED ==> k + |rounds| == |levels|)
  }

  lemma EndGrows(levels: seq<seq<Node>>, k: nat, first: Round, rest: seq<Round>, status: Status)
    requires k + 1 + |rest| <= |levels| && Passes(levels[k], first.outcomes) && EndsAs(levels, k + 1, rest, status)
    ensures EndsAs(levels, k, [first] + rest, status)
  {
    var rounds := [first] + rest;
    assert rounds[|rounds| - 1] == if rest == [] then first else rest[|rest| - 1];
  }

  lemma ResultsGrow(levels: seq<seq<Node>>, k: nat, first: Round, rest: seq<Round>)
    requires k + 1 + |rest| <= |levels| && |first.outcomes| == |levels[k]|
    requires forall i {:trigger rest[i]} :: 0 <= i < |rest| ==> |rest[i].outcomes| == |levels[k + 1 + i]|
    ensures forall i {:trigger ([first] + rest)[i]} :: 0 <= i < |rest| + 1 ==>
              |([first] + rest)[i].outcomes| == |levels[k + i]|
    ensures HistoryResults(levels, k, [first] + rest) ==
            Results(levels[k], first.outcomes) + HistoryResults(levels, k + 1, rest)
  {
    assert ([first] + rest)[1..] == rest;
  }

  /**
   A run is the history of its levels. It fails exactly if a node of the last round failed, is blocked exactly if
   none did and a person was asked there, and no round follows such a one.
   */
  lemma {:induction false} RunHasHistory(exec: Executor, levels: seq<seq<Node>>, k: nat, state: State)
    returns (rounds: seq<Round>)
    requires k <= |levels|
    ensures IsHistory(exec, levels, k, rounds, state)
    ensures var r := RunFrom(exec, levels, k, state);
            && r.results == HistoryResults(levels, k, rounds)
            && r.state == (if rounds == [] then state else rounds[|rounds| - 1].after)
            && EndsAs(levels, k, rounds, r.status)
    decreases |levels| - k
  {
    if k == |levels| {
      rounds := [];
    } else {
      var first := Round(state, LevelOutcomes(exec, levels[k], state), LevelState(exec, levels[k], state));
      assert IsRound(exec, levels[k], first);
      RunRound(exec, levels, k, state);
      if StatusAfter(levels[k], first.outcomes) == None {
        var rest := RunHasHistory(exec, levels, k + 1, first.after);
        rounds := [first] + rest;
        HistoryGrows(exec, levels, k, first, rest);
        ResultsGrow(levels, k, first, rest);
        EndGrows(levels, k, first, rest, RunFrom(exec, levels, k, state).status);
      } else {
        rounds := [first];
        ResultsGrow(levels, k, first, []);
        assert [first] + [] == rounds;
      }
    }
  }

  ghost predicate ListsFailure(results: seq<NodeResult>) {
    exists i :: 0 <= i < |results| && !results[i].success
  }

  lemma ListsFailureIn(a: seq<NodeResult>, b: seq<NodeResult>)
    ensures ListsFailure(a + b) <==> ListsFailure(a) || ListsFailure(b)
  {
    if ListsFailure(b) {
      var i :| 0 <= i < |b| && !b[i].success;
      assert (a + b)[|a| + i] == b[i];
    }
    if ListsFailure(a) {
      var i :| 0 <= i < |a| && !a[i].success;
      assert (a + b)[i] == a[i];
    }
  }

  lemma LevelListsFailure(level: seq<Node>, outcomes: seq<Outcome>)
    requires |outcomes| == |level|
    ensures ListsFailure(Results(level, outcomes)) <==> Fails(outcomes)
  {
    forall i | 0 <= i < |level|
      ensures Results(level, outcomes)[i].success <==> outcomes[i].Success?
    {
    }
  }

  /** The results list a failure exactly when the run failed. */
  lemma {:induction false} FailureIsListed(exec: Executor, levels: seq<seq<Node>>, k: nat, state: State)
    requires k <= |levels|
    ensures RunFrom(exec, levels, k, state).status == FAILED <==> ListsFailure(RunFrom(exec, levels, k, state).results)
    decreases |levels| - k
  {
    if k < |levels| {
      var outcomes, after := LevelOutcomes(exec, levels[k], state), LevelState(exec, levels[k], state);
      RunRound(exec, levels, k, state);
      LevelListsFailure(levels[k], outcomes);
      if StatusAfter(levels[k], outcomes) == None {
        FailureIsListed(exec, levels, k + 1, after);
        ListsFailureIn(Results(levels[k], outcomes), RunFrom(exec, levels, k + 1, after).results);
      }
    }
  }

  // ---- Siblings ----

  /** A node that has its output at once. */
  ghost predicate Prompt(node: Node) {
    || node.kind.Start? || node.kind.End? || node.kind.Decision?
    || (node.kind.Skill? && (node.capability.None? || node.capability.value == ""))
  }

  ghost predicate SameAt(s: State, t: State, id: string) {
    (id in s <==> id in t) && (id in s ==> s[id] == t[id])
  }

  lemma StartKeepsOthers(exec: Executor, level: seq<Node>, n: nat, state: State, id: string)
    requires n < |level| && level[n].id != id
    ensures SameAt(Started(exec, level, n, state), Started(exec, level, n + 1, state), id)
  {
    StartStep(exec, level, n, state);
  }

  /** The output of the node is there if it has it at once; else what was there before. */
  ghost predicate Sees(node: Node, outcome: Outcome, before: State, seen: State) {
    if Prompt(node) && outcome.Success? then node.id in seen && seen[node.id] == outcome.value
    else SameAt(before, seen, node.id)
  }

  lemma SeesStill(node: Node, outcome: Outcome, before: State, seen: State, later: State)
    requires Sees(node, outcome, before, seen) && SameAt(seen, later, node.id)
    ensures Sees(node, outcome, before, later)
  {
  }

  lemma SameAtTwice(s: State, t: State, u: State, id: string)
    requires SameAt(s, t, id) && SameAt(t, u, id)
    ensures SameAt(s, u, id)
  {
  }

  lemma {:induction false} StaysStarted(exec: Executor, level: seq<Node>, m: nat, n: nat, state: State, id: string)
    requires m <= n <= |level| && forall j :: m <= j < n ==> level[j].id != id
    ensures SameAt(Started(exec, level, m, state), Started(exec, level, n, state), id)
    decreases n
  {
    if m < n {
      var k := n - 1;
      StaysStarted(exec, level, m, k, state, id);
      StartKeepsOthers(exec, level, k, state, id);
      SameAtTwice(Started(exec, level, m, state), Started(exec, level, k, state), Started(exec, level, n, state), id);
    }
  }

  lemma SeesAtOnce(exec: Executor, level: seq<Node>, i: nat, state: State)
    requires DistinctIds(level) && i < |level|
    ensures Sees(level[i], LevelOutcomes(exec, level, state)[i], state, Started(exec, level, i + 1, state))
  {
    var zero := 0;
    StaysStarted(exec, level, zero, i, state, level[i].id);
    assert Started(exec, level, zero, state) == state;
    OutcomeAt(exec, level, |level|, i, state);
    StartStep(exec, level, i, state);
  }

  /** A node that starts after an earlier one of its level sees that one's output exactly if it has it at once. */
  lemma SeesSibling(exec: Executor, level: seq<Node>, i: nat, n: nat, state: State)
    requires DistinctIds(level) && i < n <= |level|
    ensures Sees(level[i], LevelOutcomes(exec, level, state)[i], state, Started(exec, level, n, state))
  {
    SeesAtOnce(exec, level, i, state);
    StaysStarted(exec, level, i + 1, n, state, level[i].id);
    SeesStill(level[i], LevelOutcomes(exec, level, state)[i], state, Started(exec, level, i + 1, state),
              Started(exec, level, n, state));
  }

  /** Node `id` of the level succeeded with the given output. */
  ghost predicate SucceededWith(level: seq<Node>, outcomes: seq<Outcome>, id: string, output: Json) {
    exists i :: 0 <= i < |level| && i < |outcomes| && level[i].id == id && outcomes[i] == Success(output)
  }

  /** A level that does not fail leaves each of its outputs in the state, and touches no other key. */
  lemma RoundWrites(exec: Executor, level: seq<Node>, round: Round, id: string)
    requires DistinctIds(level) && IsRound(exec, level, round) && Passes(level, round.outcomes)
    ensures id in IdsOf(level) ==> id in round.after && SucceededWith(level, round.outcomes, id, round.after[id])
    ensures id !in IdsOf(level) && id in round.before ==> id in round.after && round.after[id] == round.before[id]
  {
    OutputsAt(level, round.outcomes, |level|);
    if id in IdsOf(level) {
      var n :| n in level && n.id == id;
      var i :| 0 <= i < |level| && level[i] == n;
      assert round.outcomes[i].Success?;
    }
  }

  /** The node succeeded in an earlier round, and its output is in the state of round `k`. */
  ghost predicate Available(levels: seq<seq<Node>>, rounds: seq<Round>, k: nat, id: string)
    requires k < |rounds| <= |levels|
  {
    && id in rounds[k].before
    && exists j :: 0 <= j < k && SucceededWith(levels[j], rounds[j].outcomes, id, rounds[k].before[id])
  }

  lemma {:induction false} OutputsStay(exec: Executor, g: Graph, order: seq<string>, levels: seq<seq<Node>>,
                                       rounds: seq<Round>, initial: State, k: nat, id: string)
    requires Planned(g, order, levels) && IsHistory(exec, levels, 0, rounds, initial)
    requires k < |rounds| && id in Below(g, k)
    ensures Available(levels, rounds, k, id)
    decreases k
  {
    if k == 0 {
      BelowEnds(g, order, levels);
    } else {
      PlannedLevel(g, order, levels, k - 1);
      var last := rounds[k - 1];
      assert rounds[k].before == last.after;
      RoundWrites(exec, levels[k - 1], last, id);
      if id in Below(g, k - 1) {
        OutputsStay(exec, g, order, levels, rounds, initial, k - 1, id);
        var j :| 0 <= j < k - 1 && SucceededWith(levels[j], rounds[j].outcomes, id, last.before[id]);
        assert SucceededWith(levels[j], rounds[j].outcomes, id, rounds[k].before[id]);
      } else {
        assert SucceededWith(levels[k - 1], last.outcomes, id, rounds[k].before[id]);
      }
    }
  }

  /** A node starts only after every dependency has succeeded, with the dependency's output in the state. */
  lemma DependenciesSucceeded(exec: Executor, nodes: seq<Node>, plan: Result<seq<seq<Node>>, seq<string>>,
                              rounds: seq<Round>, initial: State, k: nat, i: nat, dep: string)
    requires HasDependency(nodes) && PlanOutcome(nodes, plan) && plan.Success?
    requires IsHistory(exec, plan.value, 0, rounds, initial)
    requires k < |rounds| && i < |plan.value[k]| && dep in plan.value[k][i].dependsOn
    ensures Available(plan.value, rounds, k, dep)
  {
    var g, order, levels := ById(nodes), Order(nodes), plan.value;
    PlanIsPlanned(nodes, plan);
    PlannedLevel(g, order, levels, k);
    assert DependsOnly(g, levels[k][i].id, Below(g, k));
    OutputsStay(exec, g, order, levels, rounds, initial, k, dep);
  }
}
