/** What every plan that comes out of the planner guarantees. */
module WorkflowPlans {
  import opened Wrappers
  import opened Sequences
  import opened WorkflowNodes
  import opened WorkflowGraph
  import opened WorkflowPlanner

  lemma DependencyIsShallower(g: Graph, dep: string, id: string, m: nat, n: nat)
    requires Edge(g, dep, id) && IsDepth(g, dep, m) && IsDepth(g, id, n)
    ensures m < n
  {
    var p :| ChainTo(g, p, dep) && |p| == m + 1;
    ChainExtend(g, p, dep, id);
    assert ChainTo(g, p + [id], id);
  }

  lemma LevelMembers(g: Graph, order: seq<string>, levels: seq<seq<Node>>, k: nat)
    requires IsPlan(g, order, levels) && k < |levels|
    requires Distinct(order) && (forall id :: id in order <==> id in g) && (forall id :: id in g ==> g[id].id == id)
    ensures forall i :: 0 <= i < |levels[k]| ==>
              levels[k][i].id in g && levels[k][i] == g[levels[k][i].id] && IsDepth(g, levels[k][i].id, k)
    ensures forall id :: id in g && IsDepth(g, id, k) ==> g[id] in levels[k]
    ensures forall i, j :: 0 <= i < j < |levels[k]| ==> levels[k][i].id != levels[k][j].id
  {
    var ids := Keep(order, AtDepth(g, k));
    KeepDistinct(order, AtDepth(g, k));
    forall i | 0 <= i < |levels[k]|
      ensures levels[k][i] == g[ids[i]] && ids[i] in AtDepth(g, k)
    {
    }
    forall id | id in g && IsDepth(g, id, k)
      ensures g[id] in levels[k]
    {
      assert id in ids;
      var i :| 0 <= i < |ids| && ids[i] == id;
      assert levels[k][i] == g[id];
    }
  }

  /** Every node sits in exactly one place of the plan. */
  lemma PlanPartitions(nodes: seq<Node>, levels: seq<seq<Node>>, id: string)
    requires IsPlan(ById(nodes), Order(nodes), levels) && id in ById(nodes)
    ensures exists k, i :: 0 <= k < |levels| && 0 <= i < |levels[k]| && levels[k][i] == ById(nodes)[id]
    ensures forall k, i, k', i' ::
              (0 <= k < |levels| && 0 <= i < |levels[k]| && levels[k][i].id == id &&
               0 <= k' < |levels| && 0 <= i' < |levels[k']| && levels[k'][i'].id == id) ==> k == k' && i == i'
  {
    var g := ById(nodes);
    var d :| 0 <= d < |levels| && IsDepth(g, id, d);
    LevelMembers(g, Order(nodes), levels, d);
    var i :| 0 <= i < |levels[d]| && levels[d][i] == g[id];
    forall k, j | 0 <= k < |levels| && 0 <= j < |levels[k]| && levels[k][j].id == id
      ensures k == d && j == i
    {
      LevelMembers(g, Order(nodes), levels, k);
      DepthUnique(g, id, k, d);
    }
  }

  /** Dependencies lie in strictly earlier levels. */
  lemma PlanRespectsDependencies(nodes: seq<Node>, levels: seq<seq<Node>>, k: nat, i: nat, dep: string)
    requires IsPlan(ById(nodes), Order(nodes), levels) && !Unsatisfiable(ById(nodes))
    requires k < |levels| && i < |levels[k]| && dep in levels[k][i].dependsOn
    ensures exists j :: 0 <= j < k && dep in IdsOf(levels[j])
  {
    var g := ById(nodes);
    LevelMembers(g, Order(nodes), levels, k);
    var id := levels[k][i].id;
    assert Edge(g, dep, id);
    var j :| 0 <= j < |levels| && IsDepth(g, dep, j);
    DependencyIsShallower(g, dep, id, j, k);
    LevelMembers(g, Order(nodes), levels, j);
    assert g[dep] in levels[j];
  }

  /** Any other schedule: a slot for every node, later than the slots of its dependencies. */
  ghost predicate ValidSchedule(g: Graph, slot: map<string, nat>) {
    slot.Keys == g.Keys && forall dep, id {:trigger Edge(g, dep, id)} :: Edge(g, dep, id) ==>
      dep in g && slot[dep] < slot[id]
  }

  lemma {:induction false} ScheduleRises(g: Graph, slot: map<string, nat>, p: seq<string>)
    requires ValidSchedule(g, slot) && IsChain(g, p) && p[|p| - 1] in g
    ensures slot[p[|p| - 1]] >= |p| - 1
  {
    if |p| > 1 {
      var m := |p| - 1;
      assert Edge(g, p[m - 1], p[m]);
      ChainPrefix(g, p, m);
      ScheduleRises(g, slot, p[..m]);
    }
  }

  /** No schedule runs a node earlier than the plan does, and none uses fewer levels. */
  lemma PlanIsOptimal(nodes: seq<Node>, levels: seq<seq<Node>>, slot: map<string, nat>, slots: nat)
    requires IsPlan(ById(nodes), Order(nodes), levels)
    requires ValidSchedule(ById(nodes), slot) && forall id :: id in slot ==> slot[id] < slots
    ensures forall k, i :: 0 <= k < |levels| && 0 <= i < |levels[k]| ==>
              levels[k][i].id in slot && k <= slot[levels[k][i].id]
    ensures |levels| <= slots
  {
    var g := ById(nodes);
    forall k, i | 0 <= k < |levels| && 0 <= i < |levels[k]|
      ensures levels[k][i].id in slot && k <= slot[levels[k][i].id]
    {
      LevelMembers(g, Order(nodes), levels, k);
      var id := levels[k][i].id;
      var p :| ChainTo(g, p, id) && |p| == k + 1;
      ScheduleRises(g, slot, p);
    }
    if levels != [] {
      var last := |levels| - 1;
      assert levels[last] != [];
      assert last <= slot[levels[last][0].id];
    }
  }

  ghost predicate Schedulable(g: Graph) {
    exists slot :: ValidSchedule(g, slot)
  }

  lemma {:induction false} CycleRises(g: Graph, slot: map<string, nat>, p: seq<string>)
    requires ValidSchedule(g, slot) && IsChain(g, p) && |p| > 1
    ensures p[0] in slot && p[|p| - 1] in slot && slot[p[0]] < slot[p[|p| - 1]]
  {
    var m := |p| - 1;
    assert Edge(g, p[m - 1], p[m]);
    if m > 1 {
      ChainPrefix(g, p, m);
      CycleRises(g, slot, p[..m]);
    }
  }

  lemma ScheduleMeansSatisfiable(g: Graph, slot: map<string, nat>)
    requires ValidSchedule(g, slot)
    ensures !Unsatisfiable(g)
  {
    forall p | IsChain(g, p) && |p| > 1
      ensures p[0] != p[|p| - 1]
    {
      CycleRises(g, slot, p);
    }
  }

  lemma NoSchedule(g: Graph, slot: map<string, nat>)
    requires Unsatisfiable(g)
    ensures !ValidSchedule(g, slot)
  {
    if ValidSchedule(g, slot) {
      ScheduleMeansSatisfiable(g, slot);
    }
  }

  ghost function DepthOf(g: Graph, id: string): nat
    requires exists k :: IsDepth(g, id, k)
  {
    var k :| IsDepth(g, id, k);
    k
  }

  lemma PlanIsSchedule(g: Graph, order: seq<string>, levels: seq<seq<Node>>)
    requires IsPlan(g, order, levels) && !Unsatisfiable(g)
    ensures exists slot :: ValidSchedule(g, slot)
  {
    assert forall id :: id in g ==> exists k :: IsDepth(g, id, k);
    var slot := map id | id in g :: DepthOf(g, id);
    forall dep, id | Edge(g, dep, id)
      ensures dep in g && slot[dep] < slot[id]
    {
      DependencyIsShallower(g, dep, id, slot[dep], slot[id]);
    }
    assert ValidSchedule(g, slot);
  }

  lemma SchedulableIff(g: Graph, order: seq<string>, r: Result<seq<seq<Node>>, seq<string>>)
    requires r.Failure? <==> Unsatisfiable(g)
    requires r.Success? ==> IsPlan(g, order, r.value)
    ensures r.Success? <==> Schedulable(g)
  {
    if r.Success? {
      PlanIsSchedule(g, order, r.value);
    } else {
      forall slot: map<string, nat>
        ensures !ValidSchedule(g, slot)
      {
        NoSchedule(g, slot);
      }
    }
  }

  /** Planning succeeds exactly when some schedule exists at all. */
  lemma PlansExactlyWhenSchedulable(nodes: seq<Node>, r: Result<seq<seq<Node>>, seq<string>>)
    requires HasDependency(nodes) && PlanOutcome(nodes, r)
    ensures r.Success? <==> Schedulable(ById(nodes))
  {
    SchedulableIff(ById(nodes), Order(nodes), r);
  }
}
