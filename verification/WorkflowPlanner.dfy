/**
 `planExecutionLevels`: nodes are grouped level by level, a node as soon as all
 its dependencies are in earlier levels.
 */
module WorkflowPlanner {
  import opened Wrappers
  import opened Sequences
  import opened WorkflowNodes
  import opened WorkflowGraph

  predicate HasDependency(nodes: seq<Node>) {
    exists n :: n in nodes && n.dependsOn != []
  }

  function NodesOf(g: Graph, ids: seq<string>): (r: seq<Node>)
    requires forall id :: id in ids ==> id in g
    ensures |r| == |ids|
  {
    seq(|ids|, i requires 0 <= i < |ids| => g[ids[i]])
  }

  ghost function AtDepth(g: Graph, k: nat): set<string> {
    set id | id in g && IsDepth(g, id, k)
  }

  ghost function StuckIds(g: Graph): set<string> {
    set id | id in g && Stuck(g, id)
  }

  /** Level `k` holds, in declaration order, exactly the nodes whose longest chain has `k` links. */
  ghost predicate IsPlan(g: Graph, order: seq<string>, levels: seq<seq<Node>>) {
    && (forall k :: 0 <= k < |levels| ==> levels[k] == NodesOf(g, Keep(order, AtDepth(g, k))))
    && (forall k :: 0 <= k < |levels| ==> levels[k] != [])
    && (forall id :: id in g ==> exists k :: 0 <= k < |levels| && IsDepth(g, id, k))
  }

  function Linear(nodes: seq<Node>): seq<seq<Node>> {
    seq(|nodes|, i requires 0 <= i < |nodes| => [nodes[i]])
  }

  ghost predicate PlanOutcome(nodes: seq<Node>, r: Result<seq<seq<Node>>, seq<string>>) {
    var g, order := ById(nodes), Order(nodes);
    if !HasDependency(nodes) then r == Success(Linear(nodes))
    else
      && (r.Failure? <==> Unsatisfiable(g))
      && (r.Failure? ==> r.error == Keep(order, StuckIds(g)))
      && (r.Success? ==> IsPlan(g, order, r.value))
  }

  /** The ids ranked `k` so far. */
  ghost function Ranked(g: Graph, rank: map<string, nat>, k: nat): set<string> {
    set id | id in g && id in rank && rank[id] == k
  }

  /** Some dependency of `id` had not finished when the last of `n` levels was formed. */
  ghost predicate Waits(g: Graph, rank: map<string, nat>, n: nat, id: string) {
    exists dep :: Edge(g, dep, id) && !(dep in rank && rank[dep] + 1 < n)
  }

  /** The ranks given out after `n` levels: whoever has none was waiting at the last level. */
  ghost predicate Frontier(g: Graph, rank: map<string, nat>, n: nat) {
    && Ranking(g, rank)
    && (forall id :: id in rank ==> rank[id] < n)
    && (forall id {:trigger Waits(g, rank, n, id)} :: id in g && id !in rank && n > 0 ==> Waits(g, rank, n, id))
  }

  /** The finished levels are the ranks below their number. */
  ghost predicate LevelsOf(g: Graph, order: seq<string>, levels: seq<seq<Node>>, rank: map<string, nat>) {
    && (forall k :: 0 <= k < |levels| ==> levels[k] == NodesOf(g, Keep(order, Ranked(g, rank, k))))
    && (forall k :: 0 <= k < |levels| ==> levels[k] != [])
  }

  ghost predicate Ready(g: Graph, completed: set<string>, id: string) {
    id in g && forall dep :: dep in g[id].dependsOn ==> dep in completed
  }

  /** The ids that become ready once `completed` is done. */
  ghost function Front(g: Graph, completed: set<string>): set<string> {
    set id | id in g && id !in completed && Ready(g, completed, id)
  }

  ghost function AddLevel(rank: map<string, nat>, ids: set<string>, k: nat): (r: map<string, nat>)
    ensures r.Keys == rank.Keys + ids
  {
    map id | id in rank.Keys + ids :: if id in rank then rank[id] else k
  }

  lemma FrontierAdvances(g: Graph, rank: map<string, nat>, k: nat)
    requires Frontier(g, rank, k)
    ensures Frontier(g, AddLevel(rank, Front(g, rank.Keys), k), k + 1)
  {
    var rank' := AddLevel(rank, Front(g, rank.Keys), k);
    forall id | id in rank' && rank'[id] > 0
      ensures Forced(g, rank', id)
    {
      if id in rank {
        assert Forced(g, rank, id);
        var dep :| Edge(g, dep, id) && dep in rank && rank[dep] == rank[id] - 1;
        assert rank'[dep] == rank[dep];
      } else {
        assert Waits(g, rank, k, id);
        var dep :| Edge(g, dep, id) && !(dep in rank && rank[dep] + 1 < k);
        assert rank'[dep] == k - 1;
      }
    }
    forall id | id in g && id !in rank'
      ensures Waits(g, rank', k + 1, id)
    {
      assert !Ready(g, rank.Keys, id);
      var dep :| dep in g[id].dependsOn && dep !in rank;
      assert Edge(g, dep, id);
    }
  }

  lemma LevelRanked(g: Graph, levels: seq<seq<Node>>, rank: map<string, nat>, front: set<string>)
    requires forall id :: id in rank ==> rank[id] < |levels|
    requires front <= g.Keys && front !! rank.Keys
    ensures var rank' := AddLevel(rank, front, |levels|);
            && (forall k :: 0 <= k < |levels| ==> Ranked(g, rank', k) == Ranked(g, rank, k))
            && Ranked(g, rank', |levels|) == front
  {
  }

  lemma LevelsExtend(g: Graph, order: seq<string>, levels: seq<seq<Node>>, rank: map<string, nat>, front: set<string>)
    requires LevelsOf(g, order, levels, rank)
    requires forall id :: id in rank ==> rank[id] < |levels|
    requires front <= g.Keys && front !! rank.Keys
    requires Keep(order, front) != []
    ensures LevelsOf(g, order, levels + [NodesOf(g, Keep(order, front))], AddLevel(rank, front, |levels|))
  {
    LevelRanked(g, levels, rank, front);
    var more, rank' := levels + [NodesOf(g, Keep(order, front))], AddLevel(rank, front, |levels|);
    forall k | 0 <= k < |more|
      ensures more[k] == NodesOf(g, Keep(order, Ranked(g, rank', k))) && more[k] != []
    {
      assert k < |levels| ==> more[k] == levels[k];
    }
  }

  lemma DepthIsRank(g: Graph, rank: map<string, nat>, id: string, k: nat)
    requires Ranking(g, rank) && id in rank
    ensures IsDepth(g, id, k) <==> rank[id] == k
    ensures !Stuck(g, id)
  {
    RankIsDepth(g, rank, id);
    if IsDepth(g, id, k) {
      DepthUnique(g, id, k, rank[id]);
    }
  }

  lemma AtDepthIsRanked(g: Graph, rank: map<string, nat>, k: nat)
    requires Ranking(g, rank) && rank.Keys == g.Keys
    ensures AtDepth(g, k) == Ranked(g, rank, k)
  {
    forall id | id in g
      ensures id in AtDepth(g, k) <==> id in Ranked(g, rank, k)
    {
      DepthIsRank(g, rank, id, k);
    }
  }

  lemma NoneIsStuck(g: Graph, rank: map<string, nat>)
    requires Ranking(g, rank) && rank.Keys == g.Keys
    ensures forall id :: id in g ==> IsDepth(g, id, rank[id])
    ensures !Unsatisfiable(g)
  {
    forall id | id in g
      ensures IsDepth(g, id, rank[id]) && !Stuck(g, id)
    {
      DepthIsRank(g, rank, id, rank[id]);
    }
    StuckIffUnsatisfiable(g);
  }

  lemma AllRankedIsPlan(g: Graph, order: seq<string>, levels: seq<seq<Node>>, rank: map<string, nat>)
    requires Frontier(g, rank, |levels|) && LevelsOf(g, order, levels, rank) && rank.Keys == g.Keys
    ensures IsPlan(g, order, levels) && !Unsatisfiable(g)
  {
    NoneIsStuck(g, rank);
    forall k | 0 <= k < |levels|
      ensures levels[k] == NodesOf(g, Keep(order, AtDepth(g, k)))
    {
      AtDepthIsRanked(g, rank, k);
    }
  }

  lemma NoneReadyIsStuck(g: Graph, rank: map<string, nat>)
    requires Ranking(g, rank) && Front(g, rank.Keys) == {} && rank.Keys != g.Keys
    ensures StuckIds(g) == g.Keys - rank.Keys
    ensures Unsatisfiable(g)
  {
    var blocked := g.Keys - rank.Keys;
    forall b | b in blocked
      ensures exists dep :: Edge(g, dep, b) && (dep in blocked || dep !in g)
    {
      assert b !in Front(g, rank.Keys);
      var dep :| dep in g[b].dependsOn && dep !in rank;
      assert Edge(g, dep, b);
    }
    forall id | id in g
      ensures Stuck(g, id) <==> id in blocked
    {
      if id in blocked {
        BlockedIsStuck(g, blocked, id);
      } else {
        RankIsDepth(g, rank, id);
      }
    }
    var b :| b in blocked;
    StuckIffUnsatisfiable(g);
  }

  /** The nodes of `remaining` whose dependencies are all completed, in order. */
  method ReadyLevel(g: Graph, remaining: seq<string>, completed: set<string>) returns (level: seq<Node>)
    requires forall id :: id in remaining ==> id in g && id !in completed
    ensures level == NodesOf(g, Keep(remaining, Front(g, completed)))
  {
    level := [];
    for i := 0 to |remaining|
      invariant level == NodesOf(g, Keep(remaining[..i], Front(g, completed)))
    {
      var n := g[remaining[i]];
      assert remaining[..i + 1] == remaining[..i] + [remaining[i]];
      KeepSnoc(remaining[..i], remaining[i], Front(g, completed));
      if forall d :: d in n.dependsOn ==> d in completed {
        level := level + [n];
      }
    }
    assert remaining[..|remaining|] == remaining;
  }

  function IdsOf(level: seq<Node>): set<string> {
    set n | n in level :: n.id
  }

  /** Marks a level as completed and takes it out of `remaining`. */
  method Complete(g: Graph, level: seq<Node>, remaining: seq<string>, completed: set<string>)
    returns (remaining': seq<string>, completed': set<string>)
    requires forall id :: id in remaining ==> id in g
    ensures completed' == completed + IdsOf(level)
    ensures remaining' == Keep(remaining, g.Keys - IdsOf(level))
  {
    remaining', completed' := remaining, completed;
    KeepAll(remaining, g.Keys - IdsOf(level[..0]));
    for i := 0 to |level|
      invariant completed' == completed + IdsOf(level[..i])
      invariant remaining' == Keep(remaining, g.Keys - IdsOf(level[..i]))
    {
      ghost var done := IdsOf(level[..i]);
      assert level[..i + 1] == level[..i] + [level[i]];
      assert IdsOf(level[..i + 1]) == done + {level[i].id};
      completed' := completed' + {level[i].id};
      remaining' := Keep(remaining', g.Keys - {level[i].id});
      KeepKeep(remaining, g.Keys - done, g.Keys - {level[i].id});
      assert (g.Keys - done) * (g.Keys - {level[i].id}) == g.Keys - (done + {level[i].id});
    }
    assert level[..|level|] == level;
  }

  lemma IdsOfNodes(g: Graph, ids: seq<string>)
    requires forall id :: id in ids ==> id in g && g[id].id == id
    ensures IdsOf(NodesOf(g, ids)) == set id | id in ids
  {
    forall id | id in ids
      ensures id in IdsOf(NodesOf(g, ids))
    {
      var i :| 0 <= i < |ids| && ids[i] == id;
      assert NodesOf(g, ids)[i] == g[id];
    }
  }

  /** The invariant of the planning loop. */
  ghost predicate Planning(g: Graph, order: seq<string>, levels: seq<seq<Node>>, rank: map<string, nat>,
                           remaining: seq<string>) {
    && (forall id :: id in order <==> id in g)
    && (forall id :: id in g ==> g[id].id == id)
    && Frontier(g, rank, |levels|)
    && LevelsOf(g, order, levels, rank)
    && remaining == Keep(order, g.Keys - rank.Keys)
  }

  lemma LevelIsFront(g: Graph, order: seq<string>, front: set<string>)
    requires forall id :: id in order <==> id in g
    requires forall id :: id in g ==> g[id].id == id
    requires front <= g.Keys
    ensures IdsOf(NodesOf(g, Keep(order, front))) == front
  {
    IdsOfNodes(g, Keep(order, front));
    assert (set id | id in Keep(order, front)) == front;
  }

  lemma RestKept(g: Graph, order: seq<string>, completed: set<string>, front: set<string>)
    ensures Keep(Keep(order, g.Keys - completed), g.Keys - front) == Keep(order, g.Keys - (completed + front))
  {
    KeepKeep(order, g.Keys - completed, g.Keys - front);
    assert (g.Keys - completed) * (g.Keys - front) == g.Keys - (completed + front);
  }

  lemma FrontKept(g: Graph, order: seq<string>, completed: set<string>, remaining: seq<string>)
    requires remaining == Keep(order, g.Keys - completed)
    ensures Keep(remaining, Front(g, completed)) == Keep(order, Front(g, completed))
  {
    KeepKeep(order, g.Keys - completed, Front(g, completed));
    assert (g.Keys - completed) * Front(g, completed) == Front(g, completed);
  }

  lemma PlanningGoesOn(g: Graph, order: seq<string>, levels: seq<seq<Node>>, rank: map<string, nat>,
                       remaining: seq<string>, front: set<string>)
    requires Planning(g, order, levels, rank, remaining)
    requires front == Front(g, rank.Keys) && Keep(order, front) != []
    ensures Planning(g, order, levels + [NodesOf(g, Keep(order, front))], AddLevel(rank, front, |levels|),
                     Keep(remaining, g.Keys - front))
  {
    FrontierAdvances(g, rank, |levels|);
    LevelsExtend(g, order, levels, rank, front);
    RestKept(g, order, rank.Keys, front);
  }

  lemma RoundAdvances(g: Graph, order: seq<string>, levels: seq<seq<Node>>, rank: map<string, nat>,
                      remaining: seq<string>, level: seq<Node>)
    requires Planning(g, order, levels, rank, remaining)
    requires level == NodesOf(g, Keep(remaining, Front(g, rank.Keys))) && level != []
    ensures IdsOf(level) != {} && IdsOf(level) <= g.Keys - rank.Keys
    ensures Planning(g, order, levels + [level], AddLevel(rank, IdsOf(level), |levels|),
                     Keep(remaining, g.Keys - IdsOf(level)))
  {
    var front := Front(g, rank.Keys);
    FrontKept(g, order, rank.Keys, remaining);
    LevelIsFront(g, order, front);
    assert level[0].id in IdsOf(level);
    PlanningGoesOn(g, order, levels, rank, remaining, front);
  }

  lemma RoundStalls(g: Graph, order: seq<string>, levels: seq<seq<Node>>, rank: map<string, nat>,
                    remaining: seq<string>)
    requires Planning(g, order, levels, rank, remaining)
    requires Keep(remaining, Front(g, rank.Keys)) == [] && remaining != []
    ensures remaining == Keep(order, StuckIds(g)) && Unsatisfiable(g)
  {
    FrontKept(g, order, rank.Keys, remaining);
    assert forall f :: f in Front(g, rank.Keys) ==> f in Keep(order, Front(g, rank.Keys));
    assert remaining[0] in g.Keys - rank.Keys;
    NoneReadyIsStuck(g, rank);
  }

  lemma PlanningStarts(g: Graph, order: seq<string>)
    requires forall id :: id in order <==> id in g
    requires forall id :: id in g ==> g[id].id == id
    ensures Planning(g, order, [], map[], order)
  {
    KeepAll(order, g.Keys);
    var none: map<string, nat> := map[];
    assert g.Keys - none.Keys == g.Keys;
  }

  lemma PlanningEnds(g: Graph, order: seq<string>, levels: seq<seq<Node>>, rank: map<string, nat>)
    requires Planning(g, order, levels, rank, [])
    ensures IsPlan(g, order, levels) && !Unsatisfiable(g)
  {
    assert forall id :: id in g.Keys - rank.Keys ==> id in Keep(order, g.Keys - rank.Keys);
    assert rank.Keys == g.Keys;
    AllRankedIsPlan(g, order, levels, rank);
  }

  lemma Shrinks(all: set<string>, done: set<string>, next: set<string>)
    requires next != {} && next <= all - done
    ensures |all - (done + next)| < |all - done|
  {
    assert all - (done + next) == (all - done) - next;
    assert |all - done| == |(all - done) - next| + |next|;
  }

  /** The planning loop over the nodes by id and their order of declaration. */
  method PlanGraph(byId: Graph, order: seq<string>) returns (r: Result<seq<seq<Node>>, seq<string>>)
    requires forall id :: id in order <==> id in byId
    requires forall id :: id in byId ==> byId[id].id == id
    ensures r.Failure? ==> Unsatisfiable(byId) && r.error == Keep(order, StuckIds(byId))
    ensures r.Success? ==> !Unsatisfiable(byId) && IsPlan(byId, order, r.value)
  {
    var remaining := order;
    var levels: seq<seq<Node>> := [];
    var completed: set<string> := {};
    ghost var rank: map<string, nat> := map[];
    PlanningStarts(byId, order);
    while remaining != []
      invariant Planning(byId, order, levels, rank, remaining)
      invariant completed == rank.Keys
      decreases |byId.Keys - completed|
    {
      var level := ReadyLevel(byId, remaining, completed);
      if level == [] {
        RoundStalls(byId, order, levels, rank, remaining);
        return Failure(remaining);
      }
      RoundAdvances(byId, order, levels, rank, remaining, level);
      Shrinks(byId.Keys, completed, IdsOf(level));
      remaining, completed := Complete(byId, level, remaining, completed);
      rank := AddLevel(rank, IdsOf(level), |levels|);
      levels := levels + [level];
    }
    PlanningEnds(byId, order, levels, rank);
    return Success(levels);
  }

  /** Groups the nodes into levels, or fails with the ids that can never run. */
  method PlanExecutionLevels(nodes: seq<Node>) returns (r: Result<seq<seq<Node>>, seq<string>>)
    ensures (forall n :: n in nodes ==> n.dependsOn == []) ==>
              r.Success? && |r.value| == |nodes| && forall k :: 0 <= k < |nodes| ==> r.value[k] == [nodes[k]]
    ensures (exists n :: n in nodes && n.dependsOn != []) ==> (r.Failure? <==> Unsatisfiable(ById(nodes)))
    ensures PlanOutcome(nodes, r)
  {
    if !HasDependency(nodes) {
      return Success(Linear(nodes));
    }
    r := PlanGraph(ById(nodes), Order(nodes));
  }
}
