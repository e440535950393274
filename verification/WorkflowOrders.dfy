/**
 Exactly when the order of nodes can show. A node that reads the output of one it
 depends on always finds it; of itself or one that depends on it, never. A service
 or skill that reads the output of a service of which neither waits for the other
 can tell which of the two ran first.
 */
module WorkflowOrders {
  import opened Wrappers
  import opened Sequences
  import opened WorkflowEquivalence
  import opened WorkflowGraph
  import opened WorkflowKinds
  import opened WorkflowNodes
  import opened WorkflowPlanner
  import opened WorkflowPlans
  import opened WorkflowRouter
  import opened WorkflowRunner

  ghost predicate Comparable(g: Graph, key: string, id: string) {
    key == id || Ancestor(g, key, id) || Ancestor(g, id, key)
  }

  /** Nodes read only outputs of nodes before or after them. */
  ghost predicate ReadsComparable(g: Graph) {
    forall id, key :: id in g && key in Reads(g[id]) && key in g ==> Comparable(g, key, id)
  }

  ghost predicate IdsMatch(g: Graph) {
    forall id :: id in g ==> g[id].id == id
  }

  // ---- Reading only comparable nodes is enough ----

  /** What of a state a node may depend on: its ancestors' outputs, and what is no node's output. */
  ghost function Seen(g: Graph, id: string, s: State): State {
    map k | k in s && (k !in g || Ancestor(g, k, id)) :: s[k]
  }

  ghost function Masked(exec: Executor, g: Graph): Executor {
    (node: Node, s: State) => exec(node, Seen(g, node.id, s))
  }

  lemma MaskedIsAncestorLocal(exec: Executor, g: Graph)
    requires IdsMatch(g)
    ensures AncestorLocal(Masked(exec, g), g)
  {
    forall id, s, t | id in g && SameFor(g, id, s, t)
      ensures Masked(exec, g)(g[id], s) == Masked(exec, g)(g[id], t)
    {
      assert Seen(g, id, s) == Seen(g, id, t);
    }
  }

  /** No output of the node itself or of a node after it is there yet. */
  ghost predicate NoneAfter(g: Graph, id: string, s: State) {
    forall k :: k in s && k in g ==> k != id && !Ancestor(g, id, k)
  }

  /** While it is so, masking the others changes nothing. */
  lemma MaskIsInvisible(exec: Executor, g: Graph, id: string, s: State)
    requires Local(exec, g) && ReadsComparable(g) && IdsMatch(g) && id in g && NoneAfter(g, id, s)
    ensures Masked(exec, g)(g[id], s) == exec(g[id], s)
  {
    forall k | k in Reads(g[id])
      ensures k in s ==> k in Seen(g, id, s)
    {
      assert k in g ==> Comparable(g, k, id);
    }
    assert Agree(s, Seen(g, id, s), Reads(g[id]));
  }

  /** The outputs in the state are those of finished nodes. */
  ghost predicate OnlyDone(g: Graph, s: State, done: set<string>) {
    forall k :: k in s && k in g ==> k in done
  }

  lemma DoneIsBefore(g: Graph, done: set<string>, id: string, s: State)
    requires Closed(g, done) && id !in done && OnlyDone(g, s, done)
    ensures NoneAfter(g, id, s)
  {
    forall k | k in done && Ancestor(g, id, k)
      ensures false
    {
      var p :| ChainTo(g, p, k) && |p| >= 2 && p[0] == id;
      ChainStaysInside(g, done, p);
    }
  }

  lemma {:induction false} RespectsIsClosed(g: Graph, order: seq<string>)
    requires Respects(g, order)
    ensures Closed(g, Members(order))
  {
    if order != [] {
      RespectsPrefix(g, order);
      RespectsIsClosed(g, order[..|order| - 1]);
    }
  }

  lemma {:induction false} OrderIsMasked(exec: Executor, g: Graph, order: seq<string>, state: State)
    requires Local(exec, g) && ReadsComparable(g) && IdsMatch(g) && Respects(g, order) && OnlyDone(g, state, {})
    ensures RunInOrder(Masked(exec, g), g, order, state) == RunInOrder(exec, g, order, state)
    ensures RunInOrder(exec, g, order, state).Success? ==>
              OnlyDone(g, RunInOrder(exec, g, order, state).value, Members(order))
  {
    if order != [] {
      var before, last := order[..|order| - 1], order[|order| - 1];
      RespectsPrefix(g, order);
      RespectsIsClosed(g, before);
      OrderIsMasked(exec, g, before, state);
      if RunInOrder(exec, g, before, state).Success? {
        var s := RunInOrder(exec, g, before, state).value;
        DoneIsBefore(g, Members(before), last, s);
        MaskIsInvisible(exec, g, last, s);
      }
    }
  }

  ghost predicate AgreeAt(a: Executor, b: Executor, level: seq<Node>, n: nat, state: State)
    requires n < |level|
  {
    a(level[n], Started(b, level, n, state)) == b(level[n], Started(b, level, n, state))
  }

  lemma SameNext(a: Executor, b: Executor, level: seq<Node>, n: nat, state: State)
    requires n < |level| && Outcomes(a, level, n, state) == Outcomes(b, level, n, state)
    requires AgreeAt(a, b, level, n, state)
    ensures Outcomes(a, level, n + 1, state) == Outcomes(b, level, n + 1, state)
  {
    assert Started(a, level, n, state) == Started(b, level, n, state);
    assert Outcomes(a, level, n + 1, state) ==
      Outcomes(a, level, n, state) + [a(level[n], Started(a, level, n, state))];
    assert Outcomes(b, level, n + 1, state) ==
      Outcomes(b, level, n, state) + [b(level[n], Started(b, level, n, state))];
  }

  /** Executors that agree at the start of each node of a level give the same outcomes. */
  lemma {:induction false} SameOutcomes(a: Executor, b: Executor, level: seq<Node>, n: nat, state: State)
    requires n <= |level|
    requires forall i: nat :: i < n ==> AgreeAt(a, b, level, i, state)
    ensures Outcomes(a, level, n, state) == Outcomes(b, level, n, state)
  {
    if n > 0 {
      var m := n - 1;
      SameOutcomes(a, b, level, m, state);
      SameNext(a, b, level, m, state);
    }
  }

  /** When a node of a level starts, only finished nodes and earlier siblings have written. */
  lemma StartedInLevel(exec: Executor, g: Graph, level: seq<Node>, n: nat, state: State, done: set<string>)
    requires Closed(g, done) && WorkflowEquivalence.ReadyLevel(g, level, done) && OnlyDone(g, state, done)
             && n < |level|
    ensures NoneAfter(g, level[n].id, Started(exec, level, n, state))
  {
    var id, s := level[n].id, Started(exec, level, n, state);
    assert level[n] in level && id in IdsOf(level);
    forall k | k in s && k in g
      ensures k != id && !Ancestor(g, id, k)
    {
      if k in done {
        DoneIsBefore(g, done, id, state[k := Null]);
      } else {
        WrittenKeys(level, Outcomes(exec, level, n, state), AtOnce(level, n), n, k);
        var i :| 0 <= i < n && level[i].id == k;
        if Ancestor(g, id, k) {
          AncestorIsDone(g, done, id, k);
        }
      }
    }
  }

  lemma OutcomesAreMasked(exec: Executor, g: Graph, level: seq<Node>, state: State, done: set<string>)
    requires Local(exec, g) && ReadsComparable(g) && IdsMatch(g)
    requires Closed(g, done) && WorkflowEquivalence.ReadyLevel(g, level, done) && OnlyDone(g, state, done)
    ensures LevelOutcomes(Masked(exec, g), level, state) == LevelOutcomes(exec, level, state)
  {
    var masked := Masked(exec, g);
    forall i: nat | i < |level|
      ensures AgreeAt(masked, exec, level, i, state)
    {
      StartedInLevel(exec, g, level, i, state, done);
      MaskIsInvisible(exec, g, level[i].id, Started(exec, level, i, state));
    }
    SameOutcomes(masked, exec, level, |level|, state);
  }

  lemma SameRound(a: Executor, b: Executor, levels: seq<seq<Node>>, k: nat, state: State)
    requires k < |levels| && LevelOutcomes(a, levels[k], state) == LevelOutcomes(b, levels[k], state)
    requires var after := LevelState(b, levels[k], state);
             RunFrom(a, levels, k + 1, after) == RunFrom(b, levels, k + 1, after)
    ensures RunFrom(a, levels, k, state) == RunFrom(b, levels, k, state)
  {
  }

  lemma AfterLevel(exec: Executor, g: Graph, level: seq<Node>, state: State, done: set<string>)
    requires DistinctIds(level) && OnlyDone(g, state, done)
    ensures OnlyDone(g, LevelState(exec, level, state), done + IdsOf(level))
  {
    OutputsAt(level, LevelOutcomes(exec, level, state), |level|);
  }

  lemma {:induction false} RunIsMasked(exec: Executor, g: Graph, order: seq<string>, levels: seq<seq<Node>>, k: nat,
                                      state: State, masked: Executor)
    requires Local(exec, g) && ReadsComparable(g) && IdsMatch(g) && masked == Masked(exec, g)
    requires Planned(g, order, levels) && k <= |levels| && OnlyDone(g, state, Below(g, k))
    ensures RunFrom(masked, levels, k, state) == RunFrom(exec, levels, k, state)
    decreases |levels| - k
  {
    if k < |levels| {
      BelowIsClosed(g, order, levels, k);
      PlannedLevel(g, order, levels, k);
      OutcomesAreMasked(exec, g, levels[k], state, Below(g, k));
      AfterLevel(exec, g, levels[k], state, Below(g, k));
      RunIsMasked(exec, g, order, levels, k + 1, LevelState(exec, levels[k], state), masked);
      SameRound(masked, exec, levels, k, state);
    }
  }

  /** For nodes that read only comparable ones, and a state that holds no node's output yet. */
  lemma RunIsAnyComparableOrder(rt: Runtime, nodes: seq<Node>, plan: Result<seq<seq<Node>>, seq<string>>, state: State,
                                any: seq<string>)
    requires HasDependency(nodes) && PlanOutcome(nodes, plan) && plan.Success?
    requires ReadsComparable(ById(nodes)) && OnlyDone(ById(nodes), state, {})
    requires Respects(ById(nodes), any) && Members(any) == ById(nodes).Keys
    ensures SameOutcome(RunFrom(RouterExecutor(rt), plan.value, 0, state),
                        RunInOrder(RouterExecutor(rt), ById(nodes), any, state))
  {
    var exec, g := RouterExecutor(rt), ById(nodes);
    RouterIsLocal(rt, g);
    PlanIsPlanned(nodes, plan);
    MaskedIsAncestorLocal(exec, g);
    BelowEnds(g, Order(nodes), plan.value);
    RunIsMasked(exec, g, Order(nodes), plan.value, 0, state, Masked(exec, g));
    OrderIsMasked(exec, g, any, state);
    RunEqualsOrder(Masked(exec, g), g, Order(nodes), plan.value, state, any);
  }

  // ---- Reading an incomparable node shows the order ----

  /** Every node, each after what it depends on. */
  ghost predicate FullOrder(g: Graph, order: seq<string>) {
    Respects(g, order) && Members(order) == g.Keys
  }

  ghost predicate Before(order: seq<string>, a: string, b: string) {
    exists i, j :: 0 <= i < j < |order| && order[i] == a && order[j] == b
  }

  lemma RespectsSnoc(g: Graph, order: seq<string>, id: string)
    requires Respects(g, order) && id !in order && DependsOnly(g, id, Members(order))
    ensures Respects(g, order + [id]) && Members(order + [id]) == Members(order) + {id}
  {
    var longer := order + [id];
    forall i | 0 <= i < |longer|
      ensures DependsOnly(g, longer[i], Members(longer[..i]))
    {
      assert longer[..i] == order[..i];
      assert i == |order| ==> order[..i] == order;
    }
  }

  /** Of some nodes that all can be reached, one waits for none of the others. */
  lemma SomeNext(g: Graph, done: set<string>, all: set<string>) returns (id: string)
    requires Closed(g, all) && !Unsatisfiable(g) && done <= all && done != all
    ensures id in all - done && DependsOnly(g, id, done)
  {
    var blocked := all - done;
    assert all == done + blocked;
    var any :| any in blocked;
    if forall b :: b in blocked ==> !DependsOnly(g, b, done) {
      forall b | b in blocked
        ensures exists dep :: Edge(g, dep, b) && (dep in blocked || dep !in g)
      {
        var dep :| dep in g[b].dependsOn && dep !in done;
        assert Edge(g, dep, b);
      }
      BlockedIsStuck(g, blocked, any);
      StuckIsUnsatisfiable(g, any);
    }
    id :| id in blocked && DependsOnly(g, id, done);
  }

  lemma {:induction false} ExtendTo(g: Graph, order: seq<string>, all: set<string>) returns (longer: seq<string>)
    requires Respects(g, order) && Members(order) <= all && Closed(g, all) && !Unsatisfiable(g)
    ensures Respects(g, longer) && Members(longer) == all && order <= longer
    decreases all - Members(order)
  {
    if Members(order) == all {
      longer := order;
    } else {
      var id := SomeNext(g, Members(order), all);
      RespectsSnoc(g, order, id);
      longer := ExtendTo(g, order + [id], all);
    }
  }

  ghost function UpTo(g: Graph, id: string): set<string> {
    set k | k in g && (k == id || Ancestor(g, k, id))
  }

  lemma AncestorStep(g: Graph, dep: string, k: string, id: string)
    requires Edge(g, dep, k) && (k == id || Ancestor(g, k, id))
    ensures Ancestor(g, dep, id)
  {
    if k == id {
      assert ChainTo(g, [dep, id], id);
    } else {
      var p :| ChainTo(g, p, id) && |p| >= 2 && p[0] == k;
      assert ChainTo(g, [dep] + p, id);
    }
  }

  lemma UpToIsClosed(g: Graph, id: string)
    requires !Unsatisfiable(g)
    ensures Closed(g, UpTo(g, id))
  {
    forall dep, k | k in UpTo(g, id) && Edge(g, dep, k)
      ensures dep in UpTo(g, id)
    {
      AncestorStep(g, dep, k, id);
    }
  }

  /** An order with `a`, and nothing it does not wait for, in front. */
  lemma OrderWithFirst(g: Graph, a: string, b: string) returns (order: seq<string>)
    requires !Unsatisfiable(g) && a in g && b in g && a != b && !Ancestor(g, b, a)
    ensures FullOrder(g, order) && Before(order, a, b) && !Before(order, b, a)
  {
    UpToIsClosed(g, a);
    var front := ExtendTo(g, [], UpTo(g, a));
    order := ExtendTo(g, front, g.Keys);
    assert a in Members(front) && b in Members(order) && b !in Members(front);
    var i :| 0 <= i < |front| && front[i] == a;
    var j :| 0 <= j < |order| && order[j] == b;
    assert order[..|front|] == front;
    assert order[i] == a && j >= |front|;
  }

  lemma BeforeSnoc(order: seq<string>, last: string, a: string, b: string)
    requires Distinct(order + [last])
    ensures Before(order + [last], a, b) <==> if last == b then a in order else Before(order, a, b)
  {
    var longer := order + [last];
    if last == b && a in order {
      var i :| 0 <= i < |order| && order[i] == a;
      assert longer[i] == a && longer[|order|] == b;
    } else if last != b && Before(order, a, b) {
      var i, j :| 0 <= i < j < |order| && order[i] == a && order[j] == b;
      assert longer[i] == a && longer[j] == b;
    }
  }

  // ---- A runtime that tells ----

  /** A node whose service sees its input. */
  predicate Calls(node: Node) {
    node.kind.Connector? || node.kind.Agent? || node.kind.Adapter?
  }

  /** A value in which the path leads to the number one. */
  function Nest(path: seq<string>): Json {
    if path == [] then Num(1.0) else Obj([(path[0], Nest(path[1..]))])
  }

  /** The value has the whole path as own members, and something at its end. */
  predicate Leads(v: Json, path: seq<string>)
    decreases |path|
  {
    if path == [] then v != Undefined
    else v.Obj? && Lookup(v.entries, path[0]).Some? && Leads(Lookup(v.entries, path[0]).value, path[1..])
  }

  lemma {:induction false} NestLeads(path: seq<string>)
    ensures Leads(Nest(path), path)
  {
    if path != [] {
      NestLeads(path[1..]);
    }
  }

  lemma WalkNowhere(rt: Runtime, path: seq<string>)
    ensures Walk(rt, Undefined, path) == Undefined
  {
  }

  /** Services that give back the input to the node `r`, and `v` to all others. */
  function Echo(r: string, v: Json): Runtime {
    Runtime((_, _) => Undefined, _ => None, (node: Node, input: Json) => Success(if node.id == r then input else v))
  }

  /** Such services show where a path leads: nothing is inherited. */
  lemma {:induction false} EchoWalks(r: string, v: Json, from: Json, path: seq<string>)
    ensures Walk(Echo(r, v), from, path) != Undefined <==> Leads(from, path)
    decreases |path|
  {
    if path != [] && !Nullish(from) {
      var next := Member(Echo(r, v), from, path[0]);
      WalkNowhere(Echo(r, v), path[1..]);
      EchoWalks(r, v, next, path[1..]);
    }
  }

  /** The members that every output of the node has, unless a service gives the output. */
  function FixedFields(node: Node): set<string> {
    match node.kind
    case Start => {"marker"}
    case End => {"marker"}
    case Decision => {"result", "branch"}
    case Skill => {"note"}
    case _ => {}
  }

  /** The path leads somewhere from some output of a service, or from every output of another node. */
  predicate CanLead(node: Node, path: seq<string>) {
    Calls(node) || path == [] || (|path| == 1 && path[0] in FixedFields(node))
  }

  /** An input mapping is an object: no field twice. */
  ghost predicate IsRecord(mapping: seq<(string, string)>) {
    forall i, j :: 0 <= i < j < |mapping| ==> mapping[i].0 != mapping[j].0
  }

  /** A field of the input that a node's output carries; a skill keeps the input in its third entry. */
  function Reported(node: Node, output: Json, field: string): Option<Json> {
    var input := if node.kind.Skill? && output.Obj? && |output.entries| == 3 then output.entries[2].1 else output;
    if input.Obj? then Lookup(input.entries, field) else None
  }

  lemma EchoReports(node: Node, v: Json, i: nat, state: State)
    requires (Calls(node) || node.kind.Skill?) && IsRecord(node.inputMapping) && i < |node.inputMapping|
    ensures var (field, ref) := node.inputMapping[i];
            var outcome := Execute(Echo(node.id, v), node, state);
            outcome.Success? && Reported(node, outcome.value, field) == Some(Resolve(Echo(node.id, v), ref, state))
  {
    FieldGiven(Echo(node.id, v), node.inputMapping, i, state, node.defaultInput);
  }

  lemma EchoResolves(r: string, v: Json, ref: string, state: State)
    requires IsPath(ref)
    requires RootKey(ref) in state ==> Leads(state[RootKey(ref)], Parts(ref)[1..])
    ensures RootKey(ref) in state <==> Resolve(Echo(r, v), ref, state) != Undefined
  {
    if RootKey(ref) in state {
      EchoWalks(r, v, state[RootKey(ref)], Parts(ref)[1..]);
    } else {
      WalkNowhere(Echo(r, v), Parts(ref)[1..]);
    }
  }

  /** Neither pauses nor fails of itself. */
  predicate Runnable(node: Node) {
    !node.kind.Human? && !node.kind.Unknown?
      && !(node.kind.Decision? && node.condition.Test? && node.condition.field.None?)
  }

  lemma EchoLeads(node: Node, r: string, path: seq<string>, state: State)
    requires Runnable(node) && CanLead(node, path) && node.id != r
    ensures var outcome := Execute(Echo(r, Nest(path)), node, state);
            outcome.Success? && Leads(outcome.value, path)
  {
    NestLeads(path);
  }

  predicate TellsAt(node: Node, output: Json, field: string, ran: bool) {
    && Reported(node, output, field).Some?
    && (ran <==> Reported(node, output, field).value != Undefined)
  }

  /** The node `r` tells whether `x` ran before it: a path leads somewhere from every output of `x`. */
  ghost predicate Tells(exec: Executor, g: Graph, x: string, r: string, path: seq<string>, field: string) {
    && x in g && r in g && x != r
    && (forall id, s :: id in g ==> exec(g[id], s).Success?)
    && (forall s :: exec(g[x], s).Success? ==> Leads(exec(g[x], s).value, path))
    && (forall s :: (x in s ==> Leads(s[x], path)) && exec(g[r], s).Success? ==>
          TellsAt(g[r], exec(g[r], s).value, field, x in s))
  }

  lemma EchoTells(g: Graph, x: string, r: string, i: nat)
    requires IdsMatch(g) && x in g && r in g && x != r && (Calls(g[r]) || g[r].kind.Skill?)
    requires IsRecord(g[r].inputMapping) && i < |g[r].inputMapping|
    requires var ref := g[r].inputMapping[i].1; IsPath(ref) && RootKey(ref) == x && CanLead(g[x], Parts(ref)[1..])
    requires forall id :: id in g ==> Runnable(g[id])
    ensures var (field, ref) := g[r].inputMapping[i];
            var path := Parts(ref)[1..];
            Tells(RouterExecutor(Echo(r, Nest(path))), g, x, r, path, field)
  {
    var (field, ref) := g[r].inputMapping[i];
    var path := Parts(ref)[1..];
    var v := Nest(path);
    forall id, s | id in g
      ensures Execute(Echo(r, v), g[id], s).Success?
    {
      assert Runnable(g[id]);
    }
    forall s | Execute(Echo(r, v), g[x], s).Success?
      ensures Leads(Execute(Echo(r, v), g[x], s).value, path)
    {
      EchoLeads(g[x], r, path, s);
    }
    forall s | (x in s ==> Leads(s[x], path)) && Execute(Echo(r, v), g[r], s).Success?
      ensures TellsAt(g[r], Execute(Echo(r, v), g[r], s).value, field, x in s)
    {
      EchoReports(g[r], v, i, s);
      EchoResolves(r, v, ref, s);
    }
  }

  lemma {:induction false} TellsInOrder(exec: Executor, g: Graph, order: seq<string>, state: State, x: string,
                                        r: string, path: seq<string>, field: string)
    requires Tells(exec, g, x, r, path, field) && Respects(g, order) && x !in state
    ensures RunInOrder(exec, g, order, state).Success?
    ensures var after := RunInOrder(exec, g, order, state).value;
            && (x in after <==> x in order) && (x in after ==> Leads(after[x], path))
            && (r in order ==> r in after && TellsAt(g[r], after[r], field, Before(order, x, r)))
  {
    if order != [] {
      var before, last := order[..|order| - 1], order[|order| - 1];
      RespectsPrefix(g, order);
      TellsInOrder(exec, g, before, state, x, r, path, field);
      assert order == before + [last];
      BeforeSnoc(before, last, x, r);
      assert exec(g[last], RunInOrder(exec, g, before, state).value).Success?;
    }
  }

  /** Two orders that a node tells apart leave different states. */
  lemma OrdersTellApart(exec: Executor, g: Graph, state: State, x: string, r: string, path: seq<string>,
                        field: string)
    returns (a: seq<string>, b: seq<string>)
    requires Tells(exec, g, x, r, path, field) && !Unsatisfiable(g) && x !in state && !Comparable(g, x, r)
    ensures FullOrder(g, a) && FullOrder(g, b)
    ensures RunInOrder(exec, g, a, state).Success? && RunInOrder(exec, g, b, state).Success?
    ensures RunInOrder(exec, g, a, state) != RunInOrder(exec, g, b, state)
  {
    a := OrderWithFirst(g, x, r);
    b := OrderWithFirst(g, r, x);
    TellsInOrder(exec, g, a, state, x, r, path, field);
    TellsInOrder(exec, g, b, state, x, r, path, field);
    assert r in Members(a) && r in Members(b);
  }

  /** A service or skill reads `x`, along a path that can lead somewhere. */
  ghost predicate ShowsRead(g: Graph, x: string, r: string)
    requires x in g && r in g
  {
    && (Calls(g[r]) || g[r].kind.Skill?)
    && exists m :: m in g[r].inputMapping && IsPath(m.1) && RootKey(m.1) == x && CanLead(g[x], Parts(m.1)[1..])
  }

  /** A connector, agent, adapter or skill node that so reads the output of an incomparable one can tell the order. */
  lemma IncomparableReadShows(g: Graph, state: State, x: string, r: string)
    returns (rt: Runtime, a: seq<string>, b: seq<string>)
    requires IdsMatch(g) && !Unsatisfiable(g) && OnlyDone(g, state, {})
    requires forall id :: id in g ==> Runnable(g[id]) && IsRecord(g[id].inputMapping)
    requires r in g && x in g && ShowsRead(g, x, r) && !Comparable(g, x, r)
    ensures FullOrder(g, a) && FullOrder(g, b)
    ensures var exec := RouterExecutor(rt);
            && RunInOrder(exec, g, a, state).Success? && RunInOrder(exec, g, b, state).Success?
            && RunInOrder(exec, g, a, state) != RunInOrder(exec, g, b, state)
  {
    var m :| m in g[r].inputMapping && IsPath(m.1) && RootKey(m.1) == x && CanLead(g[x], Parts(m.1)[1..]);
    var i :| 0 <= i < |g[r].inputMapping| && g[r].inputMapping[i] == m;
    EchoTells(g, x, r, i);
    var path := Parts(m.1)[1..];
    rt := Echo(r, Nest(path));
    a, b := OrdersTellApart(RouterExecutor(rt), g, state, x, r, path, m.0);
  }

  // ---- Exactly when the order shows ----

  /** Between incomparable nodes, only services and skills read, and along paths that can lead somewhere. */
  ghost predicate Traceable(g: Graph) {
    && (forall id :: id in g ==> Runnable(g[id]) && IsRecord(g[id].inputMapping))
    && (forall id, key :: id in g && key in Reads(g[id]) && key in g && !Comparable(g, key, id) ==>
        ShowsRead(g, key, id))
  }

  lemma {:induction false} NeverBlocked(exec: Executor, levels: seq<seq<Node>>, k: nat, state: State)
    requires k <= |levels|
    requires forall i, j :: 0 <= i < |levels| && 0 <= j < |levels[i]| ==> Runnable(levels[i][j])
    ensures RunFrom(exec, levels, k, state).status != BLOCKED
    decreases |levels| - k
  {
    if k < |levels| {
      NeverBlocked(exec, levels, k + 1, LevelState(exec, levels[k], state));
    }
  }

  lemma PlanIsNeverBlocked(exec: Executor, nodes: seq<Node>, plan: Result<seq<seq<Node>>, seq<string>>, state: State)
    requires HasDependency(nodes) && PlanOutcome(nodes, plan) && plan.Success? && Traceable(ById(nodes))
    ensures RunFrom(exec, plan.value, 0, state).status != BLOCKED
  {
    PlanIsPlanned(nodes, plan);
    forall i, j | 0 <= i < |plan.value| && 0 <= j < |plan.value[i]|
      ensures Runnable(plan.value[i][j])
    {
      LevelMembers(ById(nodes), Order(nodes), plan.value, i);
    }
    NeverBlocked(exec, plan.value, 0, state);
  }

  /** A run that is not blocked cannot end like two sequential runs that end differently. */
  lemma NotBoth(run: RunResult, s: Result<State, string>, t: Result<State, string>)
    requires run.status != BLOCKED && s.Success? && t.Success? && s != t
    ensures !(SameOutcome(run, s) && SameOutcome(run, t))
  {
  }

  lemma RunTellsOne(nodes: seq<Node>, plan: Result<seq<seq<Node>>, seq<string>>, state: State, x: string, r: string)
    returns (rt: Runtime, any: seq<string>)
    requires HasDependency(nodes) && PlanOutcome(nodes, plan) && plan.Success?
    requires Traceable(ById(nodes)) && OnlyDone(ById(nodes), state, {})
    requires var g := ById(nodes); r in g && x in g && x in Reads(g[r]) && !Comparable(g, x, r)
    ensures FullOrder(ById(nodes), any)
    ensures !SameOutcome(RunFrom(RouterExecutor(rt), plan.value, 0, state),
                         RunInOrder(RouterExecutor(rt), ById(nodes), any, state))
  {
    var g := ById(nodes);
    assert !Unsatisfiable(g);
    var a, b;
    rt, a, b := IncomparableReadShows(g, state, x, r);
    var exec := RouterExecutor(rt);
    PlanIsNeverBlocked(exec, nodes, plan, state);
    var run := RunFrom(exec, plan.value, 0, state);
    NotBoth(run, RunInOrder(exec, g, a, state), RunInOrder(exec, g, b, state));
    any := if SameOutcome(run, RunInOrder(exec, g, a, state)) then b else a;
  }

  /** The level-by-level run ends like the nodes one at a time, whatever the order and the services, exactly then. */
  lemma OrderIsInvisibleIff(nodes: seq<Node>, plan: Result<seq<seq<Node>>, seq<string>>, state: State)
    requires HasDependency(nodes) && PlanOutcome(nodes, plan) && plan.Success?
    requires Traceable(ById(nodes)) && OnlyDone(ById(nodes), state, {})
    ensures ReadsComparable(ById(nodes)) <==>
            forall rt, any :: FullOrder(ById(nodes), any) ==>
              SameOutcome(RunFrom(RouterExecutor(rt), plan.value, 0, state),
                          RunInOrder(RouterExecutor(rt), ById(nodes), any, state))
  {
    var g := ById(nodes);
    if ReadsComparable(g) {
      forall rt, any | FullOrder(g, any)
        ensures SameOutcome(RunFrom(RouterExecutor(rt), plan.value, 0, state),
                            RunInOrder(RouterExecutor(rt), g, any, state))
      {
        RunIsAnyComparableOrder(rt, nodes, plan, state, any);
      }
    } else {
      var r, x :| r in g && x in Reads(g[r]) && x in g && !Comparable(g, x, r);
      var rt, any := RunTellsOne(nodes, plan, state, x, r);
    }
  }
}
