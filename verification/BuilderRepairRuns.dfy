/** The validate-and-repair loop: every due repair brings the list closer, and where none is due it is sound. */
module BuilderRepairRuns {
  import opened Wrappers
  import opened BuilderNodes
  import opened BuilderValidation
  import opened BuilderRepair

  function TriggerLack(nodes: seq<Node>): nat {
    if nodes != [] && nodes[0].IsTrigger() then 0 else 1
  }

  function ExitLack(nodes: seq<Node>): nat {
    if nodes != [] && nodes[|nodes| - 1].IsExit() then 0 else 1
  }

  function AuditLack(nodes: seq<Node>): nat {
    if NoAudit(nodes) then 1 else 0
  }

  /** The repairs still to come. An exit or monitor node that is added is a write without retry, so it counts twice. */
  function Work(nodes: seq<Node>): nat {
    TriggerLack(nodes) + 2 * ExitLack(nodes) + 2 * AuditLack(nodes) +
    Count(nodes, NO_PREDICATE) + Count(nodes, NO_PATH) + Count(nodes, NO_RETRY)
  }

  lemma WorkBound(nodes: seq<Node>)
    ensures Work(nodes) <= 5 + 3 * |nodes|
  {
    CountAtMost(nodes, NO_PREDICATE);
    CountAtMost(nodes, NO_PATH);
    CountAtMost(nodes, NO_RETRY);
  }

  // ---- One repair ----

  lemma NoAuditByIndex(nodes: seq<Node>)
    ensures NoAudit(nodes) <==> forall i :: 0 <= i < |nodes| ==> !nodes[i].IsAudit()
  {
  }

  lemma RenumberedKeeps(nodes: seq<Node>)
    ensures Work(Renumbered(nodes)) == Work(nodes)
    ensures UniqueIds(nodes) ==> UniqueIds(Renumbered(nodes))
  {
    var r := Renumbered(nodes);
    CountSame(nodes, r, NO_PREDICATE);
    CountSame(nodes, r, NO_PATH);
    CountSame(nodes, r, NO_RETRY);
    assert NoAudit(nodes) <==> NoAudit(r) by {
      NoAuditByIndex(nodes);
      NoAuditByIndex(r);
    }
  }

  lemma CountOne(n: Node, p: Node -> bool)
    ensures Count([n], p) == if p(n) then 1 else 0
  {
    assert [n][..0] == [];
  }

  lemma PrependCounts(t: Node, nodes: seq<Node>, p: Node -> bool)
    requires !p(t)
    ensures Count([t] + nodes, p) == Count(nodes, p)
  {
    CountAppend([t], nodes, p);
    CountOne(t, p);
  }

  lemma AddTriggerWork(nodes: seq<Node>, id: string)
    requires Due(nodes, AddTrigger)
    ensures Work(Apply(nodes, AddTrigger, id)) + 1 == Work(nodes)
    ensures UniqueIds(nodes) && !HasId(nodes, id) ==> UniqueIds(Apply(nodes, AddTrigger, id))
  {
    var t := TriggerNode(id);
    var with := [t] + nodes;
    RenumberedKeeps(with);
    PrependCounts(t, nodes, NO_PREDICATE);
    PrependCounts(t, nodes, NO_PATH);
    PrependCounts(t, nodes, NO_RETRY);
    assert AuditLack(with) == AuditLack(nodes) by {
      assert forall n :: n in with <==> n == t || n in nodes;
    }
    assert ExitLack(with) == ExitLack(nodes);
    assert UniqueIds(nodes) && !HasId(nodes, id) ==> UniqueIds(with);
  }

  /** Appending a node that is a write without retry and no branch. */
  lemma AppendWork(nodes: seq<Node>, n: Node)
    requires nodes != [] && n.LacksRetry() && !n.IsBranch() && n.IsExit()
    ensures Work(nodes + [n]) + 2 * ExitLack(nodes) + 2 * AuditLack(nodes) ==
            Work(nodes) + 1 + if NoAudit(nodes) && !n.IsAudit() then 2 else 0
    ensures UniqueIds(nodes) && !HasId(nodes, n.id) ==> UniqueIds(nodes + [n])
  {
    var with := nodes + [n];
    CountAppend(nodes, [n], NO_PREDICATE);
    CountAppend(nodes, [n], NO_PATH);
    CountAppend(nodes, [n], NO_RETRY);
    CountOne(n, NO_PREDICATE);
    CountOne(n, NO_PATH);
    CountOne(n, NO_RETRY);
    assert forall m :: m in with <==> m == n || m in nodes;
    assert AuditLack(with) == if NoAudit(nodes) && !n.IsAudit() then 1 else 0;
  }

  lemma AddExitWork(nodes: seq<Node>, id: string)
    requires Due(nodes, AddExitNode)
    ensures Work(Apply(nodes, AddExitNode, id)) + 1 == Work(nodes)
    ensures UniqueIds(nodes) && !HasId(nodes, id) ==> UniqueIds(Apply(nodes, AddExitNode, id))
  {
    AppendWork(nodes, ExitNode(id, |nodes| + 1));
  }

  lemma AddMonitorWork(nodes: seq<Node>, id: string)
    requires Due(nodes, AddMonitor)
    ensures Work(Apply(nodes, AddMonitor, id)) < Work(nodes)
    ensures UniqueIds(nodes) && !HasId(nodes, id) ==> UniqueIds(Apply(nodes, AddMonitor, id))
  {
    AppendWork(nodes, MonitorNode(id, |nodes| + 1));
    RenumberedKeeps(nodes + [MonitorNode(id, |nodes| + 1)]);
  }

  /** A node changed only in its failure action, retry count, outputs or settings. */
  predicate SameRole(n: Node, m: Node) {
    n.id == m.id && n.kind == m.kind && n.actionType == m.actionType && n.connectorKey == m.connectorKey
  }

  /** Lists whose nodes have the same roles lack the same trigger, exit and audit nodes. */
  lemma SameRoles(a: seq<Node>, b: seq<Node>)
    requires |a| == |b| && forall i :: 0 <= i < |a| ==> SameRole(a[i], b[i])
    ensures TriggerLack(a) == TriggerLack(b) && ExitLack(a) == ExitLack(b) && AuditLack(a) == AuditLack(b)
    ensures UniqueIds(a) ==> UniqueIds(b)
  {
    NoAuditByIndex(a);
    NoAuditByIndex(b);
    assert forall i :: 0 <= i < |a| ==> a[i].IsAudit() == b[i].IsAudit();
  }

  lemma UpdateWork(nodes: seq<Node>, i: nat, m: Node)
    requires i < |nodes| && SameRole(nodes[i], m)
    ensures Work(nodes[i := m])
            + (if nodes[i].LacksPredicate() then 1 else 0) + (if nodes[i].LacksPath() then 1 else 0)
            + (if nodes[i].LacksRetry() then 1 else 0)
         == Work(nodes)
            + (if m.LacksPredicate() then 1 else 0) + (if m.LacksPath() then 1 else 0)
            + (if m.LacksRetry() then 1 else 0)
    ensures UniqueIds(nodes) ==> UniqueIds(nodes[i := m])
  {
    CountUpdate(nodes, i, m, NO_PREDICATE);
    CountUpdate(nodes, i, m, NO_PATH);
    CountUpdate(nodes, i, m, NO_RETRY);
    SameRoles(nodes, nodes[i := m]);
  }

  lemma RepairedNode(n: Node)
    ensures SameRole(n, WithRetry(n)) && SameRole(n, WithPredicate(n)) && SameRole(n, WithPaths(n))
    ensures !WithRetry(n).LacksRetry() && !WithPredicate(n).LacksPredicate() && !WithPaths(n).LacksPath()
    ensures WithRetry(n).LacksPredicate() == n.LacksPredicate() && WithRetry(n).LacksPath() == n.LacksPath()
    ensures WithPredicate(n).LacksPath() == n.LacksPath() && WithPredicate(n).LacksRetry() == n.LacksRetry()
    ensures WithPaths(n).LacksPredicate() == n.LacksPredicate() && WithPaths(n).LacksRetry() == n.LacksRetry()
  {
    assert Given(WithPredicate(n).settings, Condition);
    assert "true" in n.outputKeys + ["true", "false"] && "false" in n.outputKeys + ["true", "false"];
  }

  /** With unique ids, the first node with an id is the only one. */
  lemma OnlyOne(nodes: seq<Node>, n: Node)
    requires UniqueIds(nodes) && n in nodes
    ensures IndexOf(nodes, n.id) < |nodes| && nodes[IndexOf(nodes, n.id)] == n
  {
    var j :| 0 <= j < |nodes| && nodes[j] == n;
    assert IndexOf(nodes, n.id) == j;
  }

  lemma RetryAt(nodes: seq<Node>, i: nat)
    requires i < |nodes|
    ensures Work(nodes[i := WithRetry(nodes[i])]) + (if nodes[i].LacksRetry() then 1 else 0) == Work(nodes)
    ensures UniqueIds(nodes) ==> UniqueIds(nodes[i := WithRetry(nodes[i])])
  {
    RepairedNode(nodes[i]);
    UpdateWork(nodes, i, WithRetry(nodes[i]));
  }

  lemma PredicateAt(nodes: seq<Node>, i: nat)
    requires i < |nodes|
    ensures Work(nodes[i := WithPredicate(nodes[i])]) + (if nodes[i].LacksPredicate() then 1 else 0) == Work(nodes)
    ensures UniqueIds(nodes) ==> UniqueIds(nodes[i := WithPredicate(nodes[i])])
  {
    RepairedNode(nodes[i]);
    UpdateWork(nodes, i, WithPredicate(nodes[i]));
  }

  lemma PathsAt(nodes: seq<Node>, i: nat)
    requires i < |nodes|
    ensures Work(nodes[i := WithPaths(nodes[i])]) + (if nodes[i].LacksPath() then 1 else 0) == Work(nodes)
    ensures UniqueIds(nodes) ==> UniqueIds(nodes[i := WithPaths(nodes[i])])
  {
    RepairedNode(nodes[i]);
    UpdateWork(nodes, i, WithPaths(nodes[i]));
  }

  lemma RetryAllCounts(nodes: seq<Node>)
    ensures Count(RetryAll(nodes), NO_RETRY) == 0
    ensures Count(RetryAll(nodes), NO_PREDICATE) == Count(nodes, NO_PREDICATE)
    ensures Count(RetryAll(nodes), NO_PATH) == Count(nodes, NO_PATH)
  {
    var r := RetryAll(nodes);
    forall i | 0 <= i < |nodes|
      ensures !r[i].LacksRetry() && r[i].LacksPredicate() == nodes[i].LacksPredicate()
              && r[i].LacksPath() == nodes[i].LacksPath()
    {
      RepairedNode(nodes[i]);
    }
    CountSame(r, nodes, NO_PREDICATE);
    CountSame(r, nodes, NO_PATH);
    CountZero(r, NO_RETRY);
  }

  lemma RetryAllIdle(nodes: seq<Node>)
    ensures RetryAll(nodes) == nodes <==> Count(nodes, NO_RETRY) == 0
  {
    CountZero(nodes, NO_RETRY);
    if Count(nodes, NO_RETRY) != 0 {
      var n :| n in nodes && n.LacksRetry();
      var i :| 0 <= i < |nodes| && nodes[i] == n;
      assert RetryAll(nodes)[i].retryCount == 2;
    } else {
      assert forall i :: 0 <= i < |nodes| ==> nodes[i] in nodes;
      assert RetryAll(nodes) == nodes;
    }
  }

  /** The global retry repair clears every missing retry, and does nothing else; without one it does nothing. */
  lemma RetryAllWork(nodes: seq<Node>)
    ensures Work(RetryAll(nodes)) + Count(nodes, NO_RETRY) == Work(nodes)
    ensures RetryAll(nodes) == nodes <==> Count(nodes, NO_RETRY) == 0
    ensures UniqueIds(nodes) ==> UniqueIds(RetryAll(nodes))
  {
    RetryAllCounts(nodes);
    RetryAllIdle(nodes);
    SameRoles(nodes, RetryAll(nodes));
  }

  /** The repair has something to do: some retry is missing, or the first node with the target id needs the repair. */
  predicate Hits(nodes: seq<Node>, a: RepairAction) {
    match a
    case InjectRetry(None) => Count(nodes, NO_RETRY) != 0
    case InjectRetry(Some(id)) => id == "" || (IndexOf(nodes, id) < |nodes| && nodes[IndexOf(nodes, id)].LacksRetry())
    case SetBranchPredicate(id) =>
      id != "" && IndexOf(nodes, id) < |nodes| && nodes[IndexOf(nodes, id)].LacksPredicate()
    case AddBranchPaths(id) => id != "" && IndexOf(nodes, id) < |nodes| && nodes[IndexOf(nodes, id)].LacksPath()
    case _ => true
  }

  lemma UpdateProgressesIff(nodes: seq<Node>, a: RepairAction, newId: string)
    requires Due(nodes, a) && (a.InjectRetry? || a.SetBranchPredicate? || a.AddBranchPaths?)
    ensures if Hits(nodes, a) then Work(Apply(nodes, a, newId)) < Work(nodes)
            else Work(Apply(nodes, a, newId)) == Work(nodes)
    ensures UniqueIds(nodes) ==> UniqueIds(Apply(nodes, a, newId))
  {
    match a {
      case InjectRetry(None) => RetryAllWork(nodes);
      case InjectRetry(Some(id)) =>
        if id == "" {
          CountZero(nodes, NO_RETRY);
          RetryAllWork(nodes);
        } else {
          RetryAt(nodes, IndexOf(nodes, id));
        }
      case SetBranchPredicate(id) =>
        if id != "" {
          PredicateAt(nodes, IndexOf(nodes, id));
        }
      case AddBranchPaths(id) =>
        if id != "" {
          PathsAt(nodes, IndexOf(nodes, id));
        }
    }
  }

  /** A repair taken from a fresh validation brings the list closer to sound exactly when it hits; else not at all. */
  lemma OfferedRepairProgresses(nodes: seq<Node>, a: RepairAction, newId: string)
    requires Offers(nodes, a)
    ensures if Hits(nodes, a) then Work(Apply(nodes, a, newId)) < Work(nodes)
            else Work(Apply(nodes, a, newId)) == Work(nodes)
    ensures UniqueIds(nodes) && !HasId(nodes, newId) ==> UniqueIds(Apply(nodes, a, newId))
  {
    OffersExactlyDue(nodes, a);
    match a {
      case AddTrigger => AddTriggerWork(nodes, newId);
      case AddExitNode => AddExitWork(nodes, newId);
      case AddMonitor => AddMonitorWork(nodes, newId);
      case _ => UpdateProgressesIff(nodes, a, newId);
    }
  }

  /** A global retry, or a branch repair whose target is the empty id. */
  predicate Untargeted(a: RepairAction) {
    a == InjectRetry(None) || a == SetBranchPredicate("") || a == AddBranchPaths("")
  }

  /** With unique ids only those can miss, and then they change nothing. */
  lemma MissesAreUntargeted(nodes: seq<Node>, a: RepairAction, newId: string)
    requires UniqueIds(nodes) && Offers(nodes, a) && !Hits(nodes, a)
    ensures Untargeted(a) && Apply(nodes, a, newId) == nodes
  {
    OffersExactlyDue(nodes, a);
    forall n | n in nodes
      ensures IndexOf(nodes, n.id) < |nodes| && nodes[IndexOf(nodes, n.id)] == n
    {
      OnlyOne(nodes, n);
    }
    RetryAllIdle(nodes);
  }

  // ---- Nodes that no repair reaches ----

  const NEEDS_BRANCH_REPAIR: Node -> bool := (n: Node) => n.LacksPredicate() || n.LacksPath()

  /** A repair of this node's id goes to an earlier node. */
  predicate Shadowed(nodes: seq<Node>, i: nat)
    requires i < |nodes|
  {
    exists j :: 0 <= j < i && nodes[j].id == nodes[i].id
  }

  predicate IsHidden(nodes: seq<Node>, i: nat, p: Node -> bool, blank: bool)
    requires i < |nodes|
  {
    p(nodes[i]) && (Shadowed(nodes, i) || (blank && nodes[i].id == ""))
  }

  /** A node with the property is shadowed, or, if that counts, has the empty id. */
  ghost predicate Hidden(nodes: seq<Node>, p: Node -> bool, blank: bool) {
    exists i :: 0 <= i < |nodes| && IsHidden(nodes, i, p, blank)
  }

  /** A branch lacks a predicate or a path, and no branch repair reaches it. */
  ghost predicate OutOfReach(nodes: seq<Node>) {
    Hidden(nodes, NEEDS_BRANCH_REPAIR, true)
  }

  /** A node lacks a retry, and only a global retry reaches it. */
  ghost predicate LateRetry(nodes: seq<Node>) {
    Hidden(nodes, NO_RETRY, false)
  }

  /** With unique ids that leaves branches with the empty id. */
  lemma UniqueReach(nodes: seq<Node>)
    requires UniqueIds(nodes)
    ensures !LateRetry(nodes)
    ensures OutOfReach(nodes) <==> exists i :: 0 <= i < |nodes| && nodes[i].id == "" && NEEDS_BRANCH_REPAIR(nodes[i])
  {
    if i :| 0 <= i < |nodes| && nodes[i].id == "" && NEEDS_BRANCH_REPAIR(nodes[i]) {
      assert IsHidden(nodes, i, NEEDS_BRANCH_REPAIR, true);
    }
  }

  lemma SameHiddenAt(a: seq<Node>, b: seq<Node>, i: nat, p: Node -> bool, blank: bool)
    requires |a| == |b| && i < |a| && forall j :: 0 <= j < |a| ==> a[j].id == b[j].id
    requires Shadowed(a, i) || a[i].id == "" ==> p(a[i]) == p(b[i])
    ensures IsHidden(a, i, p, blank) <==> IsHidden(b, i, p, blank)
  {
  }

  lemma SameHidden(a: seq<Node>, b: seq<Node>, p: Node -> bool, blank: bool)
    requires |a| == |b| && forall i :: 0 <= i < |a| ==> a[i].id == b[i].id
    requires forall i :: 0 <= i < |a| && (Shadowed(a, i) || a[i].id == "") ==> p(a[i]) == p(b[i])
    ensures Hidden(a, p, blank) <==> Hidden(b, p, blank)
  {
    forall i | 0 <= i < |a|
      ensures IsHidden(a, i, p, blank) <==> IsHidden(b, i, p, blank)
    {
      SameHiddenAt(a, b, i, p, blank);
    }
  }

  /** Where the node at `i` is once another is inserted at `k`. */
  function Moved(i: nat, k: nat): nat {
    if i < k then i else i + 1
  }

  function Inserted(nodes: seq<Node>, k: nat, n: Node): (r: seq<Node>)
    requires k <= |nodes|
    ensures |r| == |nodes| + 1 && r[k] == n && forall i :: 0 <= i < |nodes| ==> r[Moved(i, k)] == nodes[i]
  {
    nodes[..k] + [n] + nodes[k..]
  }

  lemma ShadowMoves(nodes: seq<Node>, k: nat, n: Node, j: nat, i: nat)
    requires k <= |nodes| && j < i < |nodes| && nodes[j].id == nodes[i].id
    ensures Shadowed(Inserted(nodes, k, n), Moved(i, k))
  {
    assert Inserted(nodes, k, n)[Moved(j, k)] == nodes[j];
  }

  lemma ShadowCame(nodes: seq<Node>, k: nat, n: Node, m: nat, i: nat)
    requires k <= |nodes| && i < |nodes| && m < Moved(i, k) && n.id != nodes[i].id
    requires Inserted(nodes, k, n)[m].id == nodes[i].id
    ensures Shadowed(nodes, i)
  {
    var j := if m < k then m else m - 1;
    assert m != k;
    assert m == Moved(j, k);
  }

  lemma MovedShadow(nodes: seq<Node>, k: nat, n: Node, i: nat)
    requires k <= |nodes| && i < |nodes| && n.id != nodes[i].id
    ensures Shadowed(Inserted(nodes, k, n), Moved(i, k)) <==> Shadowed(nodes, i)
  {
    var r := Inserted(nodes, k, n);
    forall j | 0 <= j < i && nodes[j].id == nodes[i].id
      ensures Shadowed(r, Moved(i, k))
    {
      ShadowMoves(nodes, k, n, j, i);
    }
    forall m | 0 <= m < Moved(i, k) && r[m].id == nodes[i].id
      ensures Shadowed(nodes, i)
    {
      ShadowCame(nodes, k, n, m, i);
    }
  }

  lemma MovedHidden(nodes: seq<Node>, k: nat, n: Node, i: nat, p: Node -> bool, blank: bool)
    requires k <= |nodes| && i < |nodes| && n.id != nodes[i].id
    ensures IsHidden(Inserted(nodes, k, n), Moved(i, k), p, blank) <==> IsHidden(nodes, i, p, blank)
  {
    MovedShadow(nodes, k, n, i);
  }

  /** A node with a new id hides nothing, and is not hidden unless its id is empty. */
  lemma InsertedHidden(nodes: seq<Node>, k: nat, n: Node, p: Node -> bool, blank: bool)
    requires k <= |nodes| && !HasId(nodes, n.id) && (blank ==> !p(n))
    ensures Hidden(Inserted(nodes, k, n), p, blank) <==> Hidden(nodes, p, blank)
  {
    var r := Inserted(nodes, k, n);
    forall i | 0 <= i < |nodes|
      ensures IsHidden(r, Moved(i, k), p, blank) <==> IsHidden(nodes, i, p, blank)
    {
      MovedHidden(nodes, k, n, i, p, blank);
    }
    assert !IsHidden(r, k, p, blank) by {
      assert forall j :: 0 <= j < k ==> r[j] == nodes[j];
    }
    if m :| 0 <= m < |r| && IsHidden(r, m, p, blank) {
      assert m == Moved(if m < k then m else m - 1, k);
    }
  }

  lemma RenumberedHidden(nodes: seq<Node>)
    ensures OutOfReach(Renumbered(nodes)) <==> OutOfReach(nodes)
    ensures LateRetry(Renumbered(nodes)) <==> LateRetry(nodes)
  {
    SameHidden(nodes, Renumbered(nodes), NEEDS_BRANCH_REPAIR, true);
    SameHidden(nodes, Renumbered(nodes), NO_RETRY, false);
  }

  lemma PrependHidden(nodes: seq<Node>, n: Node)
    requires !HasId(nodes, n.id) && !n.IsBranch()
    ensures OutOfReach([n] + nodes) <==> OutOfReach(nodes)
    ensures LateRetry([n] + nodes) <==> LateRetry(nodes)
  {
    InsertedHidden(nodes, 0, n, NEEDS_BRANCH_REPAIR, true);
    InsertedHidden(nodes, 0, n, NO_RETRY, false);
    assert Inserted(nodes, 0, n) == [n] + nodes;
  }

  lemma AppendHidden(nodes: seq<Node>, n: Node)
    requires !HasId(nodes, n.id) && !n.IsBranch()
    ensures OutOfReach(nodes + [n]) <==> OutOfReach(nodes)
    ensures LateRetry(nodes + [n]) <==> LateRetry(nodes)
  {
    InsertedHidden(nodes, |nodes|, n, NEEDS_BRANCH_REPAIR, true);
    InsertedHidden(nodes, |nodes|, n, NO_RETRY, false);
    assert Inserted(nodes, |nodes|, n) == nodes + [n];
  }

  /** Adding a node by a repair. */
  lemma AddedHidden(nodes: seq<Node>, a: RepairAction, newId: string)
    requires (a.AddTrigger? || a.AddExitNode? || a.AddMonitor?) && !HasId(nodes, newId)
    ensures OutOfReach(Apply(nodes, a, newId)) <==> OutOfReach(nodes)
    ensures LateRetry(Apply(nodes, a, newId)) <==> LateRetry(nodes)
  {
    match a {
      case AddTrigger =>
        PrependHidden(nodes, TriggerNode(newId));
        RenumberedHidden([TriggerNode(newId)] + nodes);
      case AddExitNode => AppendHidden(nodes, ExitNode(newId, |nodes| + 1));
      case AddMonitor =>
        AppendHidden(nodes, MonitorNode(newId, |nodes| + 1));
        RenumberedHidden(nodes + [MonitorNode(newId, |nodes| + 1)]);
    }
  }

  /** Changing the first node with an id that is not empty. */
  lemma FirstHidden(nodes: seq<Node>, id: string, update: Node -> Node, p: Node -> bool, blank: bool)
    requires id != "" && forall n :: update(n).id == n.id
    ensures Hidden(UpdateFirst(nodes, id, update), p, blank) <==> Hidden(nodes, p, blank)
  {
    SameHidden(nodes, UpdateFirst(nodes, id, update), p, blank);
  }

  lemma RetryAllHidden(nodes: seq<Node>)
    ensures OutOfReach(RetryAll(nodes)) <==> OutOfReach(nodes)
    ensures !LateRetry(RetryAll(nodes))
  {
    var r := RetryAll(nodes);
    forall i | 0 <= i < |nodes|
      ensures !r[i].LacksRetry() && NEEDS_BRANCH_REPAIR(r[i]) == NEEDS_BRANCH_REPAIR(nodes[i])
    {
      RepairedNode(nodes[i]);
    }
    SameHidden(nodes, r, NEEDS_BRANCH_REPAIR, true);
  }

  /** A retry for all nodes, asked for or meant for a node with the empty id. */
  predicate IsGlobal(a: RepairAction) {
    a == InjectRetry(None) || a == InjectRetry(Some(""))
  }

  lemma TargetedHidden(nodes: seq<Node>, id: string, update: Node -> Node)
    requires forall n :: update(n).id == n.id
    ensures OutOfReach(Targeted(nodes, id, update)) <==> OutOfReach(nodes)
    ensures LateRetry(Targeted(nodes, id, update)) <==> LateRetry(nodes)
  {
    if id != "" {
      FirstHidden(nodes, id, update, NEEDS_BRANCH_REPAIR, true);
      FirstHidden(nodes, id, update, NO_RETRY, false);
    }
  }

  /** No repair reaches a hidden branch or makes one; hidden retries go only with a global one. */
  lemma HiddenStays(nodes: seq<Node>, a: RepairAction, newId: string)
    requires Offers(nodes, a) && !HasId(nodes, newId)
    ensures OutOfReach(Apply(nodes, a, newId)) <==> OutOfReach(nodes)
    ensures LateRetry(Apply(nodes, a, newId)) <==> LateRetry(nodes) && !IsGlobal(a)
  {
    OffersExactlyDue(nodes, a);
    if IsGlobal(a) {
      RetryAllHidden(nodes);
    } else {
      match a {
        case InjectRetry(Some(id)) =>
          FirstHidden(nodes, id, WithRetry, NEEDS_BRANCH_REPAIR, true);
          FirstHidden(nodes, id, WithRetry, NO_RETRY, false);
        case SetBranchPredicate(id) => TargetedHidden(nodes, id, WithPredicate);
        case AddBranchPaths(id) => TargetedHidden(nodes, id, WithPaths);
        case _ => AddedHidden(nodes, a, newId);
      }
    }
  }

  // ---- Whole runs ----

  datatype Repair = Repair(action: RepairAction, newId: string)

  /** Each repair is offered by a fresh validation of the list it is applied to, has something to do, and adds a new
      id. */
  ghost predicate Legal(nodes: seq<Node>, repairs: seq<Repair>)
    decreases |repairs|
  {
    repairs != [] ==>
      var r := repairs[0];
      && Offers(nodes, r.action) && Hits(nodes, r.action) && !HasId(nodes, r.newId)
      && Legal(Apply(nodes, r.action, r.newId), repairs[1..])
  }

  function Repaired(nodes: seq<Node>, repairs: seq<Repair>): seq<Node>
    decreases |repairs|
  {
    if repairs == [] then nodes else Repaired(Apply(nodes, repairs[0].action, repairs[0].newId), repairs[1..])
  }

  /** However the repairs are chosen, there are no more of them than the work of the first list. */
  lemma {:induction false} RepairsTerminate(nodes: seq<Node>, repairs: seq<Repair>)
    requires Legal(nodes, repairs)
    ensures |repairs| + Work(Repaired(nodes, repairs)) <= Work(nodes)
    ensures UniqueIds(nodes) ==> UniqueIds(Repaired(nodes, repairs))
    decreases |repairs|
  {
    if repairs != [] {
      var r := repairs[0];
      OfferedRepairProgresses(nodes, r.action, r.newId);
      RepairsTerminate(Apply(nodes, r.action, r.newId), repairs[1..]);
    }
  }

  /** Nothing is left to repair: every repair offered misses. */
  ghost predicate Settled(nodes: seq<Node>) {
    forall a :: Offers(nodes, a) ==> !Hits(nodes, a)
  }

  /** No error blocks, and only two kinds of warning remain. */
  ghost predicate Sound(nodes: seq<Node>) {
    && Validate(nodes).isValid && Validate(nodes).blockingErrors == []
    && forall issue :: issue in Validate(nodes).warnings ==> issue.kind.NoFailurePaths? || issue.kind.NotifyOnly?
  }

  /** A retry whose repair is offered and misses is hidden. */
  lemma MissedRetry(nodes: seq<Node>, i: nat)
    requires i < |nodes| && nodes[i].LacksRetry() && !Hits(nodes, InjectRetry(Some(nodes[i].id)))
    ensures LateRetry(nodes)
  {
    assert IsHidden(nodes, i, NO_RETRY, false);
  }

  lemma MissedBranch(nodes: seq<Node>, i: nat)
    requires i < |nodes| && NEEDS_BRANCH_REPAIR(nodes[i])
    requires nodes[i].LacksPredicate() ==> !Hits(nodes, SetBranchPredicate(nodes[i].id))
    requires nodes[i].LacksPath() ==> !Hits(nodes, AddBranchPaths(nodes[i].id))
    ensures OutOfReach(nodes)
  {
    assert IsHidden(nodes, i, NEEDS_BRANCH_REPAIR, true);
  }

  /** A node whose offered repair misses is hidden. */
  lemma MissedIsHidden(nodes: seq<Node>, i: nat)
    requires Settled(nodes) && i < |nodes|
    ensures NEEDS_BRANCH_REPAIR(nodes[i]) ==> OutOfReach(nodes)
    ensures nodes[i].LacksRetry() ==> LateRetry(nodes)
  {
    var id := nodes[i].id;
    OffersExactlyDue(nodes, SetBranchPredicate(id));
    OffersExactlyDue(nodes, AddBranchPaths(id));
    OffersExactlyDue(nodes, InjectRetry(Some(id)));
    assert nodes[i] in nodes;
    if nodes[i].LacksRetry() {
      MissedRetry(nodes, i);
    }
    if NEEDS_BRANCH_REPAIR(nodes[i]) {
      MissedBranch(nodes, i);
    }
  }

  lemma RemainingOffer(nodes: seq<Node>, a: RepairAction)
    requires Settled(nodes) && !OutOfReach(nodes) && !LateRetry(nodes) && Offers(nodes, a)
    ensures a == InjectRetry(None)
  {
    OffersExactlyDue(nodes, a);
    forall i | 0 <= i < |nodes|
      ensures !NEEDS_BRANCH_REPAIR(nodes[i]) && !nodes[i].LacksRetry()
    {
      MissedIsHidden(nodes, i);
    }
  }

  lemma RemainingWarning(nodes: seq<Node>, issue: Issue)
    requires nodes != [] && Settled(nodes) && !OutOfReach(nodes) && !LateRetry(nodes) && issue in Warnings(nodes)
    ensures issue.kind.NoFailurePaths? || issue.kind.NotifyOnly?
  {
    WarningsMean(nodes, issue);
    if issue.repair.Some? {
      assert issue in Validate(nodes).warnings;
      RemainingOffer(nodes, issue.repair.value);
    }
  }

  /** Where nothing is left to repair the list is sound, unless a node is hidden from its repair. */
  lemma SettledIsSound(nodes: seq<Node>)
    requires Settled(nodes) && !OutOfReach(nodes) && !LateRetry(nodes)
    ensures Sound(nodes)
  {
    OffersExactlyDue(nodes, AddTrigger);
    if Due(nodes, AddTrigger) {
      RemainingOffer(nodes, AddTrigger);
    }
    if PredicateErrors(nodes) != [] {
      var issue := PredicateErrors(nodes)[0];
      PredicateErrorsMean(nodes, issue);
      assert Offers(nodes, issue.repair.value);
      RemainingOffer(nodes, issue.repair.value);
    }
    forall issue | issue in Validate(nodes).warnings
      ensures issue.kind.NoFailurePaths? || issue.kind.NotifyOnly?
    {
      RemainingWarning(nodes, issue);
    }
  }

  lemma NoRetryLeft(nodes: seq<Node>)
    requires Sound(nodes)
    ensures Count(nodes, NO_RETRY) == 0
  {
    CountZero(nodes, NO_RETRY);
    forall n | n in nodes
      ensures !n.LacksRetry()
    {
      WarningsMean(nodes, Issue(NoRetry(n.id), Some(InjectRetry(Some(n.id)))));
    }
  }

  /** A branch that needs a repair is reported, whether a repair reaches it or not. */
  lemma BranchIsReported(nodes: seq<Node>, n: Node)
    requires n in nodes && NEEDS_BRANCH_REPAIR(n)
    ensures !Sound(nodes)
  {
    if n.LacksPredicate() {
      PredicateErrorsMean(nodes, Issue(NoPredicate(n.id), Some(SetBranchPredicate(n.id))));
    } else {
      WarningsMean(nodes, Issue(MissingPaths(n.id, !n.HasTruePath(), !n.HasFalsePath()), Some(AddBranchPaths(n.id))));
    }
  }

  lemma SoundOffersGlobalRetry(nodes: seq<Node>, a: RepairAction)
    requires Sound(nodes) && Offers(nodes, a)
    ensures a == InjectRetry(None)
  {
    var issue :| (issue in Validate(nodes).blockingErrors || issue in Validate(nodes).warnings)
      && issue.repair == Some(a);
    WarningsMean(nodes, issue);
  }

  lemma SoundHidesNothing(nodes: seq<Node>)
    requires Sound(nodes)
    ensures !OutOfReach(nodes) && !LateRetry(nodes)
  {
    NoRetryLeft(nodes);
    CountZero(nodes, NO_RETRY);
    forall i | 0 <= i < |nodes|
      ensures !IsHidden(nodes, i, NO_RETRY, false) && !IsHidden(nodes, i, NEEDS_BRANCH_REPAIR, true)
    {
      assert nodes[i] in nodes;
      if NEEDS_BRANCH_REPAIR(nodes[i]) {
        BranchIsReported(nodes, nodes[i]);
      }
    }
  }

  /** And the other way round: a sound list has nothing left to repair, and no such node. */
  lemma SoundIsSettled(nodes: seq<Node>)
    requires Sound(nodes)
    ensures Settled(nodes) && !OutOfReach(nodes) && !LateRetry(nodes)
  {
    SoundHidesNothing(nodes);
    NoRetryLeft(nodes);
    forall a | Offers(nodes, a)
      ensures !Hits(nodes, a)
    {
      SoundOffersGlobalRetry(nodes, a);
    }
  }

  /** A global retry was among the repairs. */
  ghost predicate RetriedAll(repairs: seq<Repair>) {
    exists r :: r in repairs && IsGlobal(r.action)
  }

  lemma {:induction false} HiddenStaysAlong(nodes: seq<Node>, repairs: seq<Repair>)
    requires Legal(nodes, repairs)
    ensures OutOfReach(Repaired(nodes, repairs)) <==> OutOfReach(nodes)
    ensures LateRetry(Repaired(nodes, repairs)) <==> LateRetry(nodes) && !RetriedAll(repairs)
    decreases |repairs|
  {
    if repairs != [] {
      var r := repairs[0];
      HiddenStays(nodes, r.action, r.newId);
      HiddenStaysAlong(Apply(nodes, r.action, r.newId), repairs[1..]);
      assert forall q :: q in repairs <==> q == r || q in repairs[1..];
    }
  }

  /**
   However the repairs are chosen, where nothing is left to repair the list is sound exactly if no branch was out
   of reach at first, and no retry, or a global one was among the repairs.
   */
  lemma EveryOrderSoundIff(nodes: seq<Node>, repairs: seq<Repair>)
    requires Legal(nodes, repairs) && Settled(Repaired(nodes, repairs))
    ensures Sound(Repaired(nodes, repairs)) <==> !OutOfReach(nodes) && (LateRetry(nodes) ==> RetriedAll(repairs))
  {
    var r := Repaired(nodes, repairs);
    HiddenStaysAlong(nodes, repairs);
    if Sound(r) {
      SoundIsSettled(r);
    } else if !OutOfReach(r) && !LateRetry(r) {
      SettledIsSound(r);
    }
  }

  /** An id longer than all others is new. */
  lemma {:induction false} LongId(nodes: seq<Node>) returns (id: string)
    ensures forall n :: n in nodes ==> |n.id| < |id|
  {
    if nodes == [] {
      id := "";
    } else {
      var shorter := LongId(nodes[..|nodes| - 1]);
      id := shorter + nodes[|nodes| - 1].id + "x";
      assert forall n :: n in nodes ==> n in nodes[..|nodes| - 1] || n == nodes[|nodes| - 1];
    }
  }

  lemma NewId(nodes: seq<Node>) returns (id: string)
    ensures !HasId(nodes, id)
  {
    id := LongId(nodes);
    assert forall i :: 0 <= i < |nodes| ==> nodes[i] in nodes;
  }

  /** From every list some run of repairs ends where nothing is left to repair, ... */
  lemma {:induction false} RepairsSettle(nodes: seq<Node>) returns (repairs: seq<Repair>)
    ensures Legal(nodes, repairs) && Settled(Repaired(nodes, repairs))
    decreases Work(nodes)
  {
    if Settled(nodes) {
      repairs := [];
    } else {
      var a :| Offers(nodes, a) && Hits(nodes, a);
      var id := NewId(nodes);
      OfferedRepairProgresses(nodes, a, id);
      var rest := RepairsSettle(Apply(nodes, a, id));
      repairs := [Repair(a, id)] + rest;
      assert repairs[1..] == rest;
    }
  }

  ghost predicate CanBecomeSound(nodes: seq<Node>) {
    exists repairs :: Legal(nodes, repairs) && Sound(Repaired(nodes, repairs))
  }

  /** ... and, unless a retry is hidden, it is sound there if and only if no branch was out of reach. */
  lemma RepairsReachSoundIff(nodes: seq<Node>)
    requires !LateRetry(nodes)
    ensures CanBecomeSound(nodes) <==> !OutOfReach(nodes)
  {
    if repairs :| Legal(nodes, repairs) && Sound(Repaired(nodes, repairs)) {
      SoundIsSettled(Repaired(nodes, repairs));
      HiddenStaysAlong(nodes, repairs);
    }
    if !OutOfReach(nodes) {
      var repairs := RepairsSettle(nodes);
      EveryOrderSoundIff(nodes, repairs);
    }
  }

  lemma BranchIsDue(nodes: seq<Node>, n: Node, id: string)
    requires n in nodes && n.id == id && n.LacksPredicate()
    ensures !Validate(nodes).isValid && Offers(nodes, SetBranchPredicate(id))
  {
    OffersExactlyDue(nodes, SetBranchPredicate(id));
    PredicateErrorsMean(nodes, Issue(NoPredicate(id), Some(SetBranchPredicate(id))));
  }

  /** A hidden branch is never repaired, for no list. */
  lemma OutOfReachIsStuck(nodes: seq<Node>, repairs: seq<Repair>)
    requires OutOfReach(nodes) && Legal(nodes, repairs)
    ensures !Sound(Repaired(nodes, repairs))
  {
    HiddenStaysAlong(nodes, repairs);
    if Sound(Repaired(nodes, repairs)) {
      SoundHidesNothing(Repaired(nodes, repairs));
    }
  }

  lemma NeverSound(nodes: seq<Node>)
    requires OutOfReach(nodes)
    ensures !CanBecomeSound(nodes)
  {
    forall repairs | Legal(nodes, repairs)
      ensures !Sound(Repaired(nodes, repairs))
    {
      OutOfReachIsStuck(nodes, repairs);
    }
  }

  lemma BlankIsHidden(nodes: seq<Node>, n: Node)
    requires n in nodes && n.id == "" && NEEDS_BRANCH_REPAIR(n)
    ensures OutOfReach(nodes)
  {
    var i :| 0 <= i < |nodes| && nodes[i] == n;
    assert IsHidden(nodes, i, NEEDS_BRANCH_REPAIR, true);
  }

  /** So no run makes a list sound in which a branch with the empty id needs a repair. */
  lemma BlankBranchNeverSound(nodes: seq<Node>, n: Node)
    requires n in nodes && n.id == "" && NEEDS_BRANCH_REPAIR(n)
    ensures !CanBecomeSound(nodes)
  {
    BlankIsHidden(nodes, n);
    NeverSound(nodes);
  }

  lemma BlankTargetIsNone(nodes: seq<Node>, id: string, newId: string)
    requires id == ""
    ensures Apply(nodes, SetBranchPredicate(id), newId) == nodes
  {
  }

  /** Its blocking error offers a repair that leaves the list as it is, for ever. */
  lemma BlankBranchIsStuck(nodes: seq<Node>, n: Node, id: string, newId: string)
    requires n in nodes && n.id == id && id == "" && n.LacksPredicate()
    ensures !Validate(nodes).isValid
    ensures Offers(nodes, SetBranchPredicate(id)) && Apply(nodes, SetBranchPredicate(id), newId) == nodes
  {
    BranchIsDue(nodes, n, id);
    BlankTargetIsNone(nodes, id, newId);
  }

  /** The approval repair is never among those offered, so no repair request can reach it. */
  lemma ApprovalIsNeverOffered(nodes: seq<Node>, id: string)
    ensures !Offers(nodes, AddApproval(id))
  {
    OffersExactlyDue(nodes, AddApproval(id));
  }
}
