/** A workflow as the planner lays it out, in which a node reads a sibling that is started after it. */
module WorkflowSiblings {
  import opened Wrappers
  import opened Sequences
  import opened Splitting
  import opened WorkflowEquivalence
  import opened WorkflowGraph
  import opened WorkflowNodes
  import opened WorkflowOrders
  import opened WorkflowPlanner
  import opened WorkflowRouter
  import opened WorkflowRunner

  /** A skill that shows what it read of node `b`; neither of the two depends on the other. */
  const READER := Node("a", Skill, Option.None, Absent, Null, [], [("x", "$.b")], [])
  const SOURCE := Node("b", Start, Option.None, Absent, Null, [], [], [])
  const LAST := Node("c", End, Option.None, Absent, Null, [], [], ["a"])
  const NODES := [READER, SOURCE, LAST]
  const GRAPH: Graph := map["a" := READER, "b" := SOURCE, "c" := LAST]
  const LEVELS := [[READER, SOURCE], [LAST]]
  const SOURCE_OUTPUT := Obj([("marker", Str("start"))])
  const LAST_OUTPUT := Obj([("marker", Str("end"))])

  lemma OneMoreNode(nodes: seq<Node>, n: Node)
    ensures ById(nodes + [n]) == ById(nodes)[n.id := n]
    ensures n.id !in ById(nodes) ==> Order(nodes + [n]) == Order(nodes) + [n.id]
  {
    assert (nodes + [n])[..|nodes|] == nodes;
  }

  lemma ThreeNodes(a: Node, b: Node, c: Node)
    requires a.id != b.id && a.id != c.id && b.id != c.id
    ensures ById([a, b, c]) == map[a.id := a, b.id := b, c.id := c]
    ensures Order([a, b, c]) == [a.id, b.id, c.id]
  {
    OneMoreNode([], a);
    OneMoreNode([a], b);
    OneMoreNode([a, b], c);
    assert [] + [a] == [a] && [a] + [b] == [a, b] && [a, b] + [c] == [a, b, c];
  }

  lemma NodesById()
    ensures ById(NODES) == GRAPH && Order(NODES) == ["a", "b", "c"]
  {
    assert "a"[0] != "b"[0] && "b"[0] != "c"[0] && "a"[0] != "c"[0];
    ThreeNodes(READER, SOURCE, LAST);
  }

  lemma NodesRanked(rank: map<string, nat>)
    requires rank == map["a" := 0, "b" := 0, "c" := 1]
    ensures Ranking(GRAPH, rank)
    ensures Ranked(GRAPH, rank, 0) == {"a", "b"} && Ranked(GRAPH, rank, 1) == {"c"}
  {
    assert Edge(GRAPH, "a", "c") && rank["a"] + 1 == rank["c"];
    assert Forced(GRAPH, rank, "c");
  }

  lemma KeptNodes()
    ensures Keep(["a", "b", "c"], {"a", "b"}) == ["a", "b"] && Keep(["a", "b", "c"], {"c"}) == ["c"]
  {
    KeepSnoc(["a", "b"], "c", {"a", "b"});
    KeepSnoc(["a", "b"], "c", {"c"});
    KeepSnoc(["a"], "b", {"a", "b"});
    KeepSnoc(["a"], "b", {"c"});
    KeepSnoc([], "a", {"a", "b"});
    KeepSnoc([], "a", {"c"});
    assert [] + ["a"] == ["a"] && ["a"] + ["b"] == ["a", "b"] && ["a", "b"] + ["c"] == ["a", "b", "c"];
    assert [] + ["c"] == ["c"];
  }

  lemma LevelsAreRanks(rank: map<string, nat>, order: seq<string>, levels: seq<seq<Node>>)
    requires rank == map["a" := 0, "b" := 0, "c" := 1] && order == ["a", "b", "c"] && levels == LEVELS
    ensures LevelsOf(GRAPH, order, levels, rank)
  {
    NodesRanked(rank);
    KeptNodes();
    assert levels[0] == NodesOf(GRAPH, ["a", "b"]);
    assert levels[1] == NodesOf(GRAPH, ["c"]);
  }

  lemma GraphIsPlanned(rank: map<string, nat>, order: seq<string>, levels: seq<seq<Node>>)
    requires rank == map["a" := 0, "b" := 0, "c" := 1] && order == ["a", "b", "c"] && levels == LEVELS
    ensures IsPlan(GRAPH, order, levels) && !Unsatisfiable(GRAPH)
  {
    LevelsAreRanks(rank, order, levels);
    NodesRanked(rank);
    AllRankedIsPlan(GRAPH, order, levels, rank);
  }

  /** The planner puts the two in one level. */
  lemma SiblingsArePlanned()
    ensures HasDependency(NODES) && PlanOutcome(NODES, Success(LEVELS))
  {
    assert LAST in NODES;
    NodesById();
    GraphIsPlanned(map["a" := 0, "b" := 0, "c" := 1], ["a", "b", "c"], LEVELS);
  }

  lemma ReaderPath()
    ensures IsPath("$.b") && Parts("$.b") == ["b"]
  {
    assert "$.b"[2..] == "b";
    assert "b"[0..1][0] == 'b' && "."[0] == '.';
    assert !At("b", ".", 0);
    assert Find("b", ".", 0) == 1;
  }

  function ReaderOutput(seen: Json): Json {
    Obj([("note", Str("Skill execution placeholder")), ("capability", Undefined), ("input", Obj([("x", seen)]))])
  }

  lemma ReaderSees(rt: Runtime, state: State)
    ensures Execute(rt, READER, state) == Success(ReaderOutput(Root(rt, state, "b")))
  {
    ReaderPath();
    var mapping := READER.inputMapping;
    assert mapping[..0] == [];
    assert Fields(rt, mapping, state, []) == SetField([], "x", Resolve(rt, "$.b", state));
    assert Resolve(rt, "$.b", state) == Root(rt, state, "b");
  }

  lemma FirstLevel(rt: Runtime, state: State)
    requires "b" !in state
    ensures LevelOutcomes(RouterExecutor(rt), LEVELS[0], state) ==
            [Success(ReaderOutput(rt.inherited(Obj([]), "b"))), Success(SOURCE_OUTPUT)]
  {
    var exec, level := RouterExecutor(rt), LEVELS[0];
    ReaderSees(rt, state);
    StartStep(exec, level, 0, state);
    StartStep(exec, level, 1, state);
    assert Started(exec, level, 0, state) == state;
    assert Execute(rt, SOURCE, Started(exec, level, 1, state)) == Success(SOURCE_OUTPUT);
  }

  lemma LastLevel(rt: Runtime, state: State)
    ensures LevelOutcomes(RouterExecutor(rt), LEVELS[1], state) == [Success(LAST_OUTPUT)]
  {
    StartStep(RouterExecutor(rt), LEVELS[1], 0, state);
    assert Execute(rt, LAST, state) == Success(LAST_OUTPUT);
  }

  lemma AfterFirstLevel(rt: Runtime, state: State)
    requires "b" !in state
    ensures var after := LevelState(RouterExecutor(rt), LEVELS[0], state);
            "a" in after && after["a"] == ReaderOutput(rt.inherited(Obj([]), "b"))
  {
    FirstLevel(rt, state);
    OutputsAt(LEVELS[0], [Success(ReaderOutput(rt.inherited(Obj([]), "b"))), Success(SOURCE_OUTPUT)], 2);
    assert LEVELS[0][0].id == "a";
  }

  lemma AfterLastLevel(rt: Runtime, state: State)
    ensures LevelState(RouterExecutor(rt), LEVELS[1], state) == state["c" := LAST_OUTPUT]
  {
    var level, outcomes := LEVELS[1], [Success(LAST_OUTPUT)];
    LastLevel(rt, state);
    assert Outputs(level, outcomes, 0) == map[];
    assert Outputs(level, outcomes, 1) == map["c" := LAST_OUTPUT];
  }

  /** In the plan the reader misses the sibling. */
  lemma ReaderInPlan(rt: Runtime, state: State)
    requires "b" !in state
    ensures var r := RunFrom(RouterExecutor(rt), LEVELS, 0, state);
            r.status == SUCCEEDED && "a" in r.state && r.state["a"] == ReaderOutput(rt.inherited(Obj([]), "b"))
  {
    var exec := RouterExecutor(rt);
    var after := LevelState(exec, LEVELS[0], state);
    FirstLevel(rt, state);
    AfterFirstLevel(rt, state);
    LastLevel(rt, after);
    AfterLastLevel(rt, after);
    RunStep(exec, LEVELS, 0, state, []);
    RunStep(exec, LEVELS, 1, after, []);
  }

  lemma SourceFirst()
    ensures FullOrder(GRAPH, ["b", "a", "c"])
  {
    var order: seq<string> := ["b", "a", "c"];
    assert order[..2] == ["b", "a"] && order[2] == "c";
    assert order[0] == "b" && order[1] == "a";
  }

  /** One after the other, it sees it. */
  lemma ReaderAfterSource(rt: Runtime, state: State)
    ensures var r := RunInOrder(RouterExecutor(rt), GRAPH, ["b", "a", "c"], state);
            r.Success? && "a" in r.value && r.value["a"] == ReaderOutput(SOURCE_OUTPUT)
  {
    var exec := RouterExecutor(rt);
    var order: seq<string> := ["b", "a", "c"];
    assert order[..2] == ["b", "a"] && ["b", "a"][..1] == ["b"] && ["b"][..0] == [];
    assert RunInOrder(exec, GRAPH, [], state) == Success(state);
    assert RunInOrder(exec, GRAPH, ["b"], state) == Success(state["b" := SOURCE_OUTPUT]);
    ReaderSees(rt, state["b" := SOURCE_OUTPUT]);
    assert RunInOrder(exec, GRAPH, ["b", "a"], state).Success?;
  }

  /** A planned run and an order that respects the dependencies, which leave different states. */
  lemma SiblingReadMatters(rt: Runtime, initial: Json)
    requires rt.inherited(Obj([]), "b") == Undefined
    ensures HasDependency(NODES) && PlanOutcome(NODES, Success(LEVELS))
    ensures ById(NODES) == GRAPH && FullOrder(GRAPH, ["b", "a", "c"])
    ensures var run := RunFrom(RouterExecutor(rt), LEVELS, 0, map[INITIAL_KEY := initial]);
            var sequential := RunInOrder(RouterExecutor(rt), GRAPH, ["b", "a", "c"], map[INITIAL_KEY := initial]);
            run.status == SUCCEEDED && sequential.Success? && sequential.value != run.state
  {
    var state: State := map[INITIAL_KEY := initial];
    assert |INITIAL_KEY| != |"b"|;
    NodesById();
    SiblingsArePlanned();
    SourceFirst();
    ReaderInPlan(rt, state);
    ReaderAfterSource(rt, state);
    assert ReaderOutput(SOURCE_OUTPUT).entries[2].1.entries[0].1 == SOURCE_OUTPUT;
    assert ReaderOutput(Undefined).entries[2].1.entries[0].1 == Undefined;
  }
}
