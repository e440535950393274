/**
 Running level by level is running the nodes one at a time, in any order that
 respects the dependencies, as long as each node reads only its ancestors.
 */
module WorkflowEquivalence {
  import opened Wrappers
  import opened Sequences
  import opened Splitting
  import opened WorkflowNodes
  import opened WorkflowGraph
  import opened WorkflowPlanner
  import opened WorkflowPlans
  import opened WorkflowRouter
  import opened WorkflowRunner

  /** The executor depends on the state only through what the node reads. */
  ghost predicate Local(exec: Executor, g: Graph) {
    forall id, s, t {:trigger exec(g[id], s), exec(g[id], t)} ::
      id in g && Agree(s, t, Reads(g[id])) ==> exec(g[id], s) == exec(g[id], t)
  }

  ghost predicate Ancestor(g: Graph, a: string, id: string) {
    exists p :: ChainTo(g, p, id) && |p| >= 2 && p[0] == a
  }

  /** A node that reads another node's output depends on it, directly or not. */
  ghost predicate ReadsAncestors(g: Graph) {
    forall id, key :: id in g && key in Reads(g[id]) && key in g ==> Ancestor(g, key, id)
  }

  ghost predicate Closed(g: Graph, done: set<string>) {
    done <= g.Keys && forall dep, id {:trigger Edge(g, dep, id)} :: id in done && Edge(g, dep, id) ==> dep in done
  }

  ghost predicate DependsOnly(g: Graph, id: string, done: set<string>) {
    id in g && forall dep :: dep in g[id].dependsOn ==> dep in done
  }

  lemma {:induction false} ChainStaysInside(g: Graph, done: set<string>, p: seq<string>)
    requires Closed(g, done) && IsChain(g, p) && p[|p| - 1] in done
    ensures p[0] in done
  {
    if |p| > 1 {
      assert Edge(g, p[|p| - 2], p[|p| - 1]);
      ChainPrefix(g, p, |p| - 1);
      ChainStaysInside(g, done, p[..|p| - 1]);
    }
  }

  lemma AncestorIsDone(g: Graph, done: set<string>, a: string, id: string)
    requires Closed(g, done) && DependsOnly(g, id, done) && Ancestor(g, a, id)
    ensures a in done
  {
    var p :| ChainTo(g, p, id) && |p| >= 2 && p[0] == a;
    assert Edge(g, p[|p| - 2], id);
    ChainPrefix(g, p, |p| - 1);
    ChainStaysInside(g, done, p[..|p| - 1]);
  }

  /** The states agree except on the keys in `changed`. */
  ghost predicate SameOutside(s: State, t: State, changed: set<string>) {
    forall k :: k !in changed ==> (k in s <==> k in t) && (k in s ==> s[k] == t[k])
  }

  /** The states agree on the outputs of the ancestors of `id`, and on what is no node's output. */
  ghost predicate SameFor(g: Graph, id: string, s: State, t: State) {
    forall k :: k !in g || Ancestor(g, k, id) ==> (k in s <==> k in t) && (k in s ==> s[k] == t[k])
  }

  /** No node's outcome depends on the output of a node that is not its ancestor. */
  ghost predicate AncestorLocal(exec: Executor, g: Graph) {
    forall id, s, t {:trigger exec(g[id], s), exec(g[id], t)} ::
      id in g && SameFor(g, id, s, t) ==> exec(g[id], s) == exec(g[id], t)
  }

  lemma LocalIsAncestorLocal(exec: Executor, g: Graph)
    requires Local(exec, g) && ReadsAncestors(g)
    ensures AncestorLocal(exec, g)
  {
    forall id, s, t | id in g && SameFor(g, id, s, t)
      ensures exec(g[id], s) == exec(g[id], t)
    {
      assert Agree(s, t, Reads(g[id]));
    }
  }

  /** What a node depends on is already final once its dependencies are finished. */
  lemma SameWhenDone(g: Graph, done: set<string>, id: string, s: State, t: State, changed: set<string>)
    requires Closed(g, done) && DependsOnly(g, id, done) && SameOutside(s, t, changed) && changed <= g.Keys - done
    ensures SameFor(g, id, s, t)
  {
    forall k | k in g && Ancestor(g, k, id)
      ensures k in done
    {
      AncestorIsDone(g, done, k, id);
    }
  }

  /** Each finished node's output is what the node gives on the state itself. */
  ghost predicate Settled(exec: Executor, g: Graph, s: State, done: set<string>) {
    && Closed(g, done)
    && forall id :: id in done ==> id in s && exec(g[id], s) == Success(s[id])
  }

  /** Nodes whose dependencies are finished can be added, in any number at once. */
  lemma SettledExtends(exec: Executor, g: Graph, s: State, t: State, done: set<string>, next: set<string>)
    requires AncestorLocal(exec, g) && Settled(exec, g, s, done)
    requires next !! done && forall id :: id in next ==> DependsOnly(g, id, done)
    requires SameOutside(s, t, next)
    requires forall id :: id in next ==> id in g && id in t && exec(g[id], s) == Success(t[id])
    ensures Settled(exec, g, t, done + next)
  {
    forall id | id in done + next
      ensures exec(g[id], t) == exec(g[id], s)
    {
      if id in done {
        assert forall dep :: dep in g[id].dependsOn ==> Edge(g, dep, id);
      }
      SameWhenDone(g, done, id, s, t, next);
    }
  }

  /** A node started where only finished nodes' outputs match those of a settled state gives that state's output. */
  lemma FollowsSettled(exec: Executor, g: Graph, all: State, t: State, done: set<string>, id: string)
    requires AncestorLocal(exec, g) && Settled(exec, g, all, g.Keys)
    requires Closed(g, done) && DependsOnly(g, id, done)
    requires SameOutside(all, t, g.Keys - done)
    ensures exec(g[id], t) == Success(all[id])
  {
    SameWhenDone(g, done, id, all, t, g.Keys - done);
  }

  // ---- One node at a time ----

  function RunInOrder(exec: Executor, g: Graph, order: seq<string>, state: State): Result<State, string>
    requires forall id :: id in order ==> id in g
  {
    if order == [] then Success(state)
    else
      var last := order[|order| - 1];
      match RunInOrder(exec, g, order[..|order| - 1], state)
      case Failure(e) => Failure(e)
      case Success(s) =>
        match exec(g[last], s)
        case Failure(e) => Failure(e)
        case Success(output) => Success(s[last := output])
  }

  ghost function Members(order: seq<string>): set<string> {
    set id | id in order
  }

  /** The order puts distinct nodes after everything they depend on. */
  ghost predicate Respects(g: Graph, order: seq<string>) {
    && Distinct(order)
    && (forall id :: id in order ==> id in g)
    && (forall i :: 0 <= i < |order| ==> DependsOnly(g, order[i], Members(order[..i])))
  }

  lemma RespectsPrefix(g: Graph, order: seq<string>)
    requires Respects(g, order) && order != []
    ensures var before, last := order[..|order| - 1], order[|order| - 1];
            && Respects(g, before) && last !in Members(before)
            && DependsOnly(g, last, Members(before)) && Members(order) == Members(before) + {last}
  {
    var before := order[..|order| - 1];
    forall i | 0 <= i < |before|
      ensures DependsOnly(g, before[i], Members(before[..i]))
    {
      assert before[..i] == order[..i];
    }
  }

  lemma {:induction false} OrderSettles(exec: Executor, g: Graph, order: seq<string>, state: State)
    requires AncestorLocal(exec, g) && Respects(g, order)
    requires RunInOrder(exec, g, order, state).Success?
    ensures Settled(exec, g, RunInOrder(exec, g, order, state).value, Members(order))
    ensures SameOutside(state, RunInOrder(exec, g, order, state).value, Members(order))
  {
    if order != [] {
      var before, last := order[..|order| - 1], order[|order| - 1];
      RespectsPrefix(g, order);
      OrderSettles(exec, g, before, state);
      var s, t := RunInOrder(exec, g, before, state).value, RunInOrder(exec, g, order, state).value;
      SettledExtends(exec, g, s, t, Members(before), {last});
    }
  }

  lemma {:induction false} OrderFollows(exec: Executor, g: Graph, order: seq<string>, state: State, all: State)
    requires AncestorLocal(exec, g) && Respects(g, order)
    requires Settled(exec, g, all, g.Keys) && SameOutside(state, all, g.Keys)
    ensures RunInOrder(exec, g, order, state).Success?
    ensures Closed(g, Members(order))
    ensures SameOutside(state, RunInOrder(exec, g, order, state).value, Members(order))
    ensures SameOutside(all, RunInOrder(exec, g, order, state).value, g.Keys - Members(order))
  {
    if order != [] {
      var before, last := order[..|order| - 1], order[|order| - 1];
      RespectsPrefix(g, order);
      OrderFollows(exec, g, before, state, all);
      FollowsSettled(exec, g, all, RunInOrder(exec, g, before, state).value, Members(before), last);
    }
  }

  lemma OrderReaches(exec: Executor, g: Graph, order: seq<string>, state: State, all: State)
    requires AncestorLocal(exec, g) && Respects(g, order) && Members(order) == g.Keys
    requires Settled(exec, g, all, g.Keys) && SameOutside(state, all, g.Keys)
    ensures RunInOrder(exec, g, order, state) == Success(all)
  {
    OrderFollows(exec, g, order, state, all);
    var t := RunInOrder(exec, g, order, state).value;
    assert forall k :: (k in all <==> k in t) && (k in all ==> all[k] == t[k]);
    assert t.Keys == all.Keys;
    assert t == all;
  }

  // ---- Level by level ----

  /** A level of distinct nodes that wait only for finished ones. */
  ghost predicate ReadyLevel(g: Graph, level: seq<Node>, done: set<string>) {
    && DistinctIds(level) && IdsOf(level) !! done
    && forall i :: 0 <= i < |level| ==>
         level[i].id in g && level[i] == g[level[i].id] && DependsOnly(g, level[i].id, done)
  }

  lemma StartedOutside(exec: Executor, level: seq<Node>, n: nat, state: State)
    requires n <= |level|
    ensures SameOutside(state, Started(exec, level, n, state), IdsOf(level))
  {
    var outcomes := Outcomes(exec, level, n, state);
    forall id | id in Written(level, outcomes, AtOnce(level, n), n)
      ensures id in IdsOf(level)
    {
      WrittenKeys(level, outcomes, AtOnce(level, n), n, id);
      var i :| 0 <= i < n && level[i].id == id;
      assert level[i] in level;
    }
  }

  lemma {:induction false} OutcomeAt(exec: Executor, level: seq<Node>, n: nat, i: nat, state: State)
    requires i < n <= |level|
    ensures Outcomes(exec, level, n, state)[i] == exec(level[i], Started(exec, level, i, state))
  {
    if i < n - 1 {
      OutcomeAt(exec, level, n - 1, i, state);
    }
  }

  lemma {:induction false} OutputsAt(level: seq<Node>, outcomes: seq<Outcome>, n: nat)
    requires n <= |outcomes| <= |level| && DistinctIds(level)
    ensures forall i :: 0 <= i < n && outcomes[i].Success? ==>
              level[i].id in Outputs(level, outcomes, n)
                && Outputs(level, outcomes, n)[level[i].id] == outcomes[i].value
    ensures forall id :: id in Outputs(level, outcomes, n) ==> id in IdsOf(level)
  {
    if n > 0 {
      OutputsAt(level, outcomes, n - 1);
      assert level[n - 1] in level;
    }
  }

  /** In a ready level, what earlier siblings write at once does not change any outcome. */
  lemma LevelOutcomesPlain(exec: Executor, g: Graph, level: seq<Node>, state: State, done: set<string>)
    requires AncestorLocal(exec, g) && Closed(g, done) && ReadyLevel(g, level, done)
    ensures forall i :: 0 <= i < |level| ==> LevelOutcomes(exec, level, state)[i] == exec(level[i], state)
  {
    forall i | 0 <= i < |level|
      ensures LevelOutcomes(exec, level, state)[i] == exec(level[i], state)
    {
      OutcomeAt(exec, level, |level|, i, state);
      StartedOutside(exec, level, i, state);
      assert IdsOf(level) <= g.Keys;
      SameWhenDone(g, done, level[i].id, state, Started(exec, level, i, state), IdsOf(level));
      assert exec(g[level[i].id], state) == exec(g[level[i].id], Started(exec, level, i, state));
    }
  }

  lemma LevelSettles(exec: Executor, g: Graph, level: seq<Node>, state: State, done: set<string>)
    requires AncestorLocal(exec, g) && Settled(exec, g, state, done) && ReadyLevel(g, level, done)
    requires !AnyFailed(LevelOutcomes(exec, level, state))
    ensures Settled(exec, g, LevelState(exec, level, state), done + IdsOf(level))
    ensures SameOutside(state, LevelState(exec, level, state), IdsOf(level))
  {
    var outcomes, after := LevelOutcomes(exec, level, state), LevelState(exec, level, state);
    LevelOutcomesPlain(exec, g, level, state, done);
    OutputsAt(level, outcomes, |level|);
    forall id | id in IdsOf(level)
      ensures id in g && DependsOnly(g, id, done) && id in after && exec(g[id], state) == Success(after[id])
    {
      var n :| n in level && n.id == id;
      var i :| 0 <= i < |level| && level[i] == n;
      assert outcomes[i].Success?;
    }
    SettledExtends(exec, g, state, after, done, IdsOf(level));
  }

  lemma LevelFollows(exec: Executor, g: Graph, level: seq<Node>, state: State, done: set<string>, all: State)
    requires AncestorLocal(exec, g) && Settled(exec, g, all, g.Keys)
    requires Closed(g, done) && ReadyLevel(g, level, done) && SameOutside(all, state, g.Keys - done)
    ensures !AnyFailed(LevelOutcomes(exec, level, state))
    ensures SameOutside(all, LevelState(exec, level, state), g.Keys - (done + IdsOf(level)))
  {
    var outcomes, after := LevelOutcomes(exec, level, state), LevelState(exec, level, state);
    LevelOutcomesPlain(exec, g, level, state, done);
    forall i | 0 <= i < |level|
      ensures outcomes[i] == Success(all[level[i].id])
    {
      FollowsSettled(exec, g, all, state, done, level[i].id);
    }
    OutputsAt(level, outcomes, |level|);
    forall k | k !in g.Keys - (done + IdsOf(level))
      ensures (k in all <==> k in after) && (k in all ==> all[k] == after[k])
    {
      if k in IdsOf(level) {
        var n :| n in level && n.id == k;
        var i :| 0 <= i < |level| && level[i] == n;
        assert outcomes[i].Success?;
      }
    }
  }

  ghost predicate Shallow(g: Graph, id: string, k: nat) {
    exists j :: 0 <= j < k && IsDepth(g, id, j)
  }

  /** The nodes of the levels before `k`. */
  ghost function Below(g: Graph, k: nat): set<string> {
    set id | id in g && Shallow(g, id, k)
  }

  /** A plan of a graph that can be planned, with the ids in declaration order. */
  ghost predicate Planned(g: Graph, order: seq<string>, levels: seq<seq<Node>>) {
    && IsPlan(g, order, levels) && !Unsatisfiable(g)
    && Distinct(order) && (forall id :: id in order <==> id in g) && (forall id :: id in g ==> g[id].id == id)
  }

  lemma PlannedDepth(g: Graph, order: seq<string>, levels: seq<seq<Node>>, dep: string, id: string, k: nat)
    requires Planned(g, order, levels) && Edge(g, dep, id) && IsDepth(g, id, k)
    ensures dep in Below(g, k)
  {
    assert dep in g;
    var j :| 0 <= j < |levels| && IsDepth(g, dep, j);
    DependencyIsShallower(g, dep, id, j, k);
  }

  lemma BelowIsClosed(g: Graph, order: seq<string>, levels: seq<seq<Node>>, k: nat)
    requires Planned(g, order, levels)
    ensures Closed(g, Below(g, k))
  {
    forall dep, id | id in Below(g, k) && Edge(g, dep, id)
      ensures dep in Below(g, k)
    {
      var j :| 0 <= j < k && IsDepth(g, id, j);
      PlannedDepth(g, order, levels, dep, id, j);
      var i :| 0 <= i < j && IsDepth(g, dep, i);
    }
  }

  lemma NotShallow(g: Graph, id: string, k: nat)
    requires IsDepth(g, id, k)
    ensures !Shallow(g, id, k)
  {
    forall j | 0 <= j < k
      ensures !IsDepth(g, id, j)
    {
      if IsDepth(g, id, j) {
        DepthUnique(g, id, j, k);
      }
    }
  }

  lemma PlannedLevel(g: Graph, order: seq<string>, levels: seq<seq<Node>>, k: nat)
    requires Planned(g, order, levels) && k < |levels|
    ensures ReadyLevel(g, levels[k], Below(g, k))
    ensures Below(g, k + 1) == Below(g, k) + IdsOf(levels[k])
  {
    var level := levels[k];
    LevelMembers(g, order, levels, k);
    forall i | 0 <= i < |level|
      ensures DependsOnly(g, level[i].id, Below(g, k)) && level[i].id !in Below(g, k)
    {
      var id := level[i].id;
      forall dep | dep in g[id].dependsOn
        ensures dep in Below(g, k)
      {
        assert Edge(g, dep, id);
        PlannedDepth(g, order, levels, dep, id, k);
      }
      NotShallow(g, id, k);
    }
    forall id | id in g
      ensures id in Below(g, k + 1) <==> id in Below(g, k) || id in IdsOf(level)
    {
      if id in Below(g, k + 1) && id !in Below(g, k) {
        var j :| 0 <= j < k + 1 && IsDepth(g, id, j);
        assert g[id] in level;
      }
    }
  }

  lemma BelowEnds(g: Graph, order: seq<string>, levels: seq<seq<Node>>)
    requires Planned(g, order, levels)
    ensures Below(g, 0) == {} && Below(g, |levels|) == g.Keys
  {
    forall id | id in g
      ensures id in Below(g, |levels|)
    {
      var k :| 0 <= k < |levels| && IsDepth(g, id, k);
    }
  }

  lemma {:induction false} RunSettles(exec: Executor, g: Graph, order: seq<string>, levels: seq<seq<Node>>, k: nat,
                                     state: State)
    requires AncestorLocal(exec, g) && Planned(g, order, levels) && k <= |levels|
    requires Settled(exec, g, state, Below(g, k))
    requires RunFrom(exec, levels, k, state).status == SUCCEEDED
    ensures Settled(exec, g, RunFrom(exec, levels, k, state).state, g.Keys)
    ensures SameOutside(state, RunFrom(exec, levels, k, state).state, g.Keys)
    decreases |levels| - k
  {
    if k == |levels| {
      BelowEnds(g, order, levels);
    } else {
      PlannedLevel(g, order, levels, k);
      LevelSettles(exec, g, levels[k], state, Below(g, k));
      RunSettles(exec, g, order, levels, k + 1, LevelState(exec, levels[k], state));
      assert IdsOf(levels[k]) <= g.Keys;
    }
  }

  lemma {:induction false} RunFollows(exec: Executor, g: Graph, order: seq<string>, levels: seq<seq<Node>>, k: nat,
                                     state: State, all: State)
    requires AncestorLocal(exec, g) && Planned(g, order, levels) && k <= |levels|
    requires Settled(exec, g, all, g.Keys) && SameOutside(all, state, g.Keys - Below(g, k))
    ensures RunFrom(exec, levels, k, state).status != FAILED
    ensures RunFrom(exec, levels, k, state).status == SUCCEEDED ==> RunFrom(exec, levels, k, state).state == all
    decreases |levels| - k
  {
    if k == |levels| {
      BelowEnds(g, order, levels);
      assert forall key :: (key in all <==> key in state) && (key in all ==> all[key] == state[key]);
      assert all.Keys == state.Keys;
    } else {
      PlannedLevel(g, order, levels, k);
      BelowIsClosed(g, order, levels, k);
      LevelFollows(exec, g, levels[k], state, Below(g, k), all);
      RunFollows(exec, g, order, levels, k + 1, LevelState(exec, levels[k], state), all);
    }
  }

  /** A successful run leaves the state that every dependency-respecting order leaves. */
  lemma ParallelIsSequential(exec: Executor, g: Graph, order: seq<string>, levels: seq<seq<Node>>, state: State,
                             any: seq<string>)
    requires AncestorLocal(exec, g) && Planned(g, order, levels)
    requires Respects(g, any) && Members(any) == g.Keys
    requires RunFrom(exec, levels, 0, state).status == SUCCEEDED
    ensures RunInOrder(exec, g, any, state) == Success(RunFrom(exec, levels, 0, state).state)
  {
    BelowEnds(g, order, levels);
    RunSettles(exec, g, order, levels, 0, state);
    OrderReaches(exec, g, any, state, RunFrom(exec, levels, 0, state).state);
  }

  /** If some dependency-respecting order runs through, the run does not fail, and unless paused it ends alike. */
  lemma SequentialIsParallel(exec: Executor, g: Graph, order: seq<string>, levels: seq<seq<Node>>, state: State,
                             any: seq<string>)
    requires AncestorLocal(exec, g) && Planned(g, order, levels)
    requires Respects(g, any) && Members(any) == g.Keys
    requires RunInOrder(exec, g, any, state).Success?
    ensures RunFrom(exec, levels, 0, state).status != FAILED
    ensures RunFrom(exec, levels, 0, state).status == SUCCEEDED ==>
              RunFrom(exec, levels, 0, state).state == RunInOrder(exec, g, any, state).value
  {
    BelowEnds(g, order, levels);
    OrderSettles(exec, g, any, state);
    RunFollows(exec, g, order, levels, 0, state, RunInOrder(exec, g, any, state).value);
  }

  /** A run of the levels and the nodes one at a time: both succeed, with the same state, or neither does. */
  ghost predicate SameOutcome(r: RunResult, s: Result<State, string>) {
    && (r.status == SUCCEEDED ==> s == Success(r.state))
    && (r.status == FAILED ==> s.Failure?)
  }

  lemma RunEqualsOrder(exec: Executor, g: Graph, order: seq<string>, levels: seq<seq<Node>>, state: State,
                       any: seq<string>)
    requires AncestorLocal(exec, g) && Planned(g, order, levels)
    requires Respects(g, any) && Members(any) == g.Keys
    ensures SameOutcome(RunFrom(exec, levels, 0, state), RunInOrder(exec, g, any, state))
  {
    if RunFrom(exec, levels, 0, state).status == SUCCEEDED {
      ParallelIsSequential(exec, g, order, levels, state, any);
    } else if RunInOrder(exec, g, any, state).Success? {
      SequentialIsParallel(exec, g, order, levels, state, any);
    }
  }

  /** The executor that the node router provides. */
  function RouterExecutor(rt: Runtime): Executor {
    (node, state) => Execute(rt, node, state)
  }

  lemma RouterIsLocal(rt: Runtime, g: Graph)
    ensures Local(RouterExecutor(rt), g)
  {
    forall id, s, t | id in g && Agree(s, t, Reads(g[id]))
      ensures RouterExecutor(rt)(g[id], s) == RouterExecutor(rt)(g[id], t)
    {
      ExecuteAgrees(rt, g[id], s, t);
    }
  }

  lemma PlanIsPlanned(nodes: seq<Node>, plan: Result<seq<seq<Node>>, seq<string>>)
    requires HasDependency(nodes) && PlanOutcome(nodes, plan) && plan.Success?
    ensures Planned(ById(nodes), Order(nodes), plan.value)
  {
  }

  /**
   For nodes that read only their ancestors: the level-by-level run succeeds with some state only
   if running the nodes one at a time, in any order that respects the dependencies, does too.
   */
  lemma RunIsAnyOrder(rt: Runtime, nodes: seq<Node>, plan: Result<seq<seq<Node>>, seq<string>>, state: State,
                      any: seq<string>)
    requires HasDependency(nodes) && PlanOutcome(nodes, plan) && plan.Success?
    requires ReadsAncestors(ById(nodes))
    requires Respects(ById(nodes), any) && Members(any) == ById(nodes).Keys
    ensures SameOutcome(RunFrom(RouterExecutor(rt), plan.value, 0, state),
                        RunInOrder(RouterExecutor(rt), ById(nodes), any, state))
  {
    RouterIsLocal(rt, ById(nodes));
    LocalIsAncestorLocal(RouterExecutor(rt), ById(nodes));
    PlanIsPlanned(nodes, plan);
    RunEqualsOrder(RouterExecutor(rt), ById(nodes), Order(nodes), plan.value, state, any);
  }
}
