/** Applying one repair: what it does to the node list, on values and in place. */
module BuilderRepair {
  import opened Wrappers
  import opened BuilderNodes
  import opened BuilderValidation

  function TriggerNode(id: string): Node {
    Node(id, Schedule, Read, NoConnector, false, false, 0, Stop, 0, ["trigger_event"],
         map[OtherKey("scheduleType") := Text("now"), OtherKey("scheduleTime") := Text("09:00"),
             OtherKey("scheduleWeekday") := Text("daily"), OtherKey("timezone") := Text("Asia/Seoul")])
  }

  function ExitNode(id: string, order: int): Node {
    Node(id, Notification, Write, NoConnector, false, false, order, Skip, 0, ["notification_sent"],
         map[OtherKey("channel") := Text("push"), OtherKey("recipient") := Text(""),
             OtherKey("messageTemplate") := Text("done")])
  }

  function MonitorNode(id: string, order: int): Node {
    Node(id, LogMonitor, Write, MetisAudit, false, false, order, Skip, 0, ["audit_id"],
         map[OtherKey("logLevel") := Text("info"), OtherKey("destination") := Text("audit")])
  }

  function ApprovalNode(id: string, order: int): Node {
    Node(id, WaitApproval, Read, NoConnector, false, true, order, Stop, 0, ["approval_result"],
         map[OtherKey("waitType") := Text("approval"), OtherKey("timeoutMinutes") := Number(60.0)])
  }

  /** The position of the first node with the id, or the length of the list. */
  function IndexOf(nodes: seq<Node>, id: string): (i: nat)
    ensures i <= |nodes|
    ensures forall j :: 0 <= j < i ==> nodes[j].id != id
    ensures i < |nodes| ==> nodes[i].id == id
  {
    if nodes == [] then 0 else if nodes[0].id == id then 0 else IndexOf(nodes[1..], id) + 1
  }

  function Renumbered(nodes: seq<Node>): (r: seq<Node>)
    ensures |r| == |nodes| && forall i :: 0 <= i < |nodes| ==> r[i] == nodes[i].(order := i + 1)
  {
    seq(|nodes|, i requires 0 <= i < |nodes| => nodes[i].(order := i + 1))
  }

  function WithRetry(n: Node): Node {
    n.(failureAction := Retry, retryCount := 2)
  }

  function WithPredicate(n: Node): Node {
    n.(settings := n.settings[Condition := Text("true")][Predicate := Text("default")][Expression := Text("true")])
  }

  /** Each value at its first position only. */
  function Deduplicated(keys: seq<string>): (r: seq<string>)
    ensures forall k :: k in r <==> k in keys
  {
    if keys == [] then []
    else
      var before, last := Deduplicated(keys[..|keys| - 1]), keys[|keys| - 1];
      if last in before then before else before + [last]
  }

  function Or(settings: Settings, key: SettingKey, fallback: Setting): Setting {
    if Given(settings, key) then settings[key] else fallback
  }

  function WithPaths(n: Node): Node {
    n.(outputKeys := Deduplicated(n.outputKeys + ["true", "false"]),
       settings := n.settings[TrueBranch := Or(n.settings, TrueBranch, Text("continue"))]
                             [FalseBranch := Or(n.settings, FalseBranch, Text("skip"))])
  }

  function UpdateFirst(nodes: seq<Node>, id: string, update: Node -> Node): seq<Node> {
    var i := IndexOf(nodes, id);
    if i < |nodes| then nodes[i := update(nodes[i])] else nodes
  }

  function RetryAll(nodes: seq<Node>): (r: seq<Node>)
    ensures |r| == |nodes|
    ensures forall i :: 0 <= i < |nodes| ==> r[i] == if nodes[i].LacksRetry() then WithRetry(nodes[i]) else nodes[i]
  {
    seq(|nodes|, i requires 0 <= i < |nodes| => if nodes[i].LacksRetry() then WithRetry(nodes[i]) else nodes[i])
  }

  /** Updates the first node with the id; an empty id is no target. */
  function Targeted(nodes: seq<Node>, id: string, update: Node -> Node): seq<Node> {
    if id == "" then nodes else UpdateFirst(nodes, id, update)
  }

  /** The node list after a repair; `newId` is the id of the node it adds, if it adds one. */
  function Apply(nodes: seq<Node>, a: RepairAction, newId: string): seq<Node> {
    match a
    case AddTrigger => Renumbered([TriggerNode(newId)] + nodes)
    case AddExitNode => nodes + [ExitNode(newId, |nodes| + 1)]
    case AddMonitor => Renumbered(nodes + [MonitorNode(newId, |nodes| + 1)])
    case InjectRetry(None) => RetryAll(nodes)
    case InjectRetry(Some(id)) => if id == "" then RetryAll(nodes) else UpdateFirst(nodes, id, WithRetry)
    case SetBranchPredicate(id) => Targeted(nodes, id, WithPredicate)
    case AddBranchPaths(id) => Targeted(nodes, id, WithPaths)
    case AddApproval(id) =>
      var i := IndexOf(nodes, id);
      if id != "" && i < |nodes| then Renumbered(nodes[..i] + [ApprovalNode(newId, i + 1)] + nodes[i..]) else nodes
  }

  /** A node as the object that the list shares and repairs write to. */
  class HarnessNode {
    const id: string
    const kind: NodeType
    const actionType: ActionType
    const connectorKey: ConnectorKey
    const policyCheckpoint: bool
    const humanApproval: bool
    var order: int
    var failureAction: FailureAction
    var retryCount: int
    var outputKeys: seq<string>
    var settings: Settings

    function Value(): Node
      reads this
    {
      Node(id, kind, actionType, connectorKey, policyCheckpoint, humanApproval,
           order, failureAction, retryCount, outputKeys, settings)
    }

    constructor (n: Node)
      ensures Value() == n
    {
      id, kind, actionType, connectorKey := n.id, n.kind, n.actionType, n.connectorKey;
      policyCheckpoint, humanApproval := n.policyCheckpoint, n.humanApproval;
      order, failureAction, retryCount, outputKeys, settings :=
        n.order, n.failureAction, n.retryCount, n.outputKeys, n.settings;
    }
  }

  /** What the objects of a list hold. */
  function View(list: seq<HarnessNode>): (r: seq<Node>)
    reads list
    ensures |r| == |list|
    ensures forall i :: 0 <= i < |list| ==> r[i] == list[i].Value()
  {
    if list == [] then [] else View(list[..|list| - 1]) + [list[|list| - 1].Value()]
  }

  ghost predicate NoSharing(list: seq<HarnessNode>) {
    forall i, j :: 0 <= i < j < |list| ==> list[i] != list[j]
  }

  /** Every object of the result was in the list before, or is new. */
  twostate predicate Known(nodes: seq<HarnessNode>, new result: seq<HarnessNode>) {
    forall j :: 0 <= j < |result| ==> result[j] in nodes || fresh(result[j])
  }

  method Find(list: seq<HarnessNode>, id: string) returns (i: nat)
    ensures i == IndexOf(View(list), id)
  {
    i := 0;
    while i < |list| && list[i].id != id
      invariant 0 <= i <= |list|
      invariant forall j :: 0 <= j < i ==> View(list)[j].id != id
    {
      i := i + 1;
    }
  }

  method Renumber(list: seq<HarnessNode>)
    requires NoSharing(list)
    modifies list
    ensures View(list) == Renumbered(old(View(list)))
  {
    for i := 0 to |list|
      invariant forall j :: 0 <= j < |list| ==>
                  list[j].Value() == if j < i then old(View(list))[j].(order := j + 1) else old(View(list))[j]
    {
      list[i].order := i + 1;
    }
  }

  method RetryEach(list: seq<HarnessNode>)
    requires NoSharing(list)
    modifies list
    ensures View(list) == RetryAll(old(View(list)))
  {
    for i := 0 to |list|
      invariant forall j :: 0 <= j < |list| ==>
                  list[j].Value() == if j < i then RetryAll(old(View(list)))[j] else old(View(list))[j]
    {
      var n := list[i];
      if (n.actionType.Write? || n.actionType.ExternalSend?) && n.retryCount == 0 {
        n.failureAction := Retry;
        n.retryCount := 2;
      }
    }
  }

  lemma ViewAppend(a: seq<HarnessNode>, b: seq<HarnessNode>)
    ensures View(a + b) == View(a) + View(b)
  {
    assert forall j :: 0 <= j < |a + b| ==> View(a + b)[j] == (View(a) + View(b))[j];
  }

  lemma ViewSlices(nodes: seq<HarnessNode>, i: nat)
    requires i <= |nodes|
    ensures View(nodes[..i]) == View(nodes)[..i]
    ensures View(nodes[i..]) == View(nodes)[i..]
  {
    ViewAppend(nodes[..i], nodes[i..]);
    assert nodes[..i] + nodes[i..] == nodes;
  }

  lemma ViewAround(before: seq<HarnessNode>, added: HarnessNode, after: seq<HarnessNode>)
    ensures View(before + [added] + after) == View(before) + [added.Value()] + View(after)
  {
    ViewAppend(before, [added]);
    ViewAppend(before + [added], after);
    assert View([added]) == [added.Value()];
  }

  lemma InsertedDistinct(nodes: seq<HarnessNode>, i: nat, added: HarnessNode)
    requires i <= |nodes| && NoSharing(nodes) && added !in nodes
    ensures NoSharing(nodes[..i] + [added] + nodes[i..])
    ensures var r := nodes[..i] + [added] + nodes[i..]; forall j :: 0 <= j < |r| ==> r[j] in nodes || r[j] == added
  {
  }

  method InsertAt(nodes: seq<HarnessNode>, i: nat, n: Node) returns (result: seq<HarnessNode>)
    requires NoSharing(nodes) && i <= |nodes|
    ensures View(result) == View(nodes)[..i] + [n] + View(nodes)[i..]
    ensures NoSharing(result) && Known(nodes, result)
  {
    var added := new HarnessNode(n);
    ViewSlices(nodes, i);
    ViewAround(nodes[..i], added, nodes[i..]);
    InsertedDistinct(nodes, i, added);
    result := nodes[..i] + [added] + nodes[i..];
  }

  /** The list with a new object at position `i`, numbered afresh. */
  method InsertNumbered(nodes: seq<HarnessNode>, i: nat, n: Node) returns (result: seq<HarnessNode>)
    requires NoSharing(nodes) && i <= |nodes|
    modifies nodes
    ensures View(result) == Renumbered(old(View(nodes))[..i] + [n] + old(View(nodes))[i..])
    ensures NoSharing(result) && Known(nodes, result)
  {
    result := InsertAt(nodes, i, n);
    Renumber(result);
  }

  method AddTriggerTo(nodes: seq<HarnessNode>, newId: string) returns (result: seq<HarnessNode>)
    requires NoSharing(nodes)
    modifies nodes
    ensures View(result) == Apply(old(View(nodes)), AddTrigger, newId)
    ensures NoSharing(result) && Known(nodes, result)
  {
    ghost var v := View(nodes);
    assert v[..0] + [TriggerNode(newId)] + v[0..] == [TriggerNode(newId)] + v;
    result := InsertNumbered(nodes, 0, TriggerNode(newId));
  }

  method AddMonitorTo(nodes: seq<HarnessNode>, newId: string) returns (result: seq<HarnessNode>)
    requires NoSharing(nodes)
    modifies nodes
    ensures View(result) == Apply(old(View(nodes)), AddMonitor, newId)
    ensures NoSharing(result) && Known(nodes, result)
  {
    ghost var v := View(nodes);
    assert v[..|v|] + [MonitorNode(newId, |v| + 1)] + v[|v|..] == v + [MonitorNode(newId, |v| + 1)];
    result := InsertNumbered(nodes, |nodes|, MonitorNode(newId, |nodes| + 1));
  }

  method AddApprovalTo(nodes: seq<HarnessNode>, id: string, newId: string) returns (result: seq<HarnessNode>)
    requires NoSharing(nodes)
    modifies nodes
    ensures View(result) == Apply(old(View(nodes)), AddApproval(id), newId)
    ensures NoSharing(result) && Known(nodes, result)
  {
    result := nodes;
    ghost var v := View(nodes);
    var i := Find(nodes, id);
    assert Apply(v, AddApproval(id), newId)
        == if id != "" && i < |v| then Renumbered(v[..i] + [ApprovalNode(newId, i + 1)] + v[i..]) else v;
    if id != "" && i < |nodes| {
      result := InsertNumbered(nodes, i, ApprovalNode(newId, i + 1));
    }
  }

  method RetryFirst(list: seq<HarnessNode>, id: string)
    requires NoSharing(list)
    modifies list
    ensures View(list) == UpdateFirst(old(View(list)), id, WithRetry)
  {
    var i := Find(list, id);
    if i < |list| {
      list[i].failureAction := Retry;
      list[i].retryCount := 2;
    }
  }

  method PredicateFirst(list: seq<HarnessNode>, id: string)
    requires NoSharing(list)
    modifies list
    ensures View(list) == UpdateFirst(old(View(list)), id, WithPredicate)
  {
    var i := Find(list, id);
    if i < |list| {
      var t := list[i];
      t.settings := t.settings[Condition := Text("true")][Predicate := Text("default")][Expression := Text("true")];
    }
  }

  method PathsFirst(list: seq<HarnessNode>, id: string)
    requires NoSharing(list)
    modifies list
    ensures View(list) == UpdateFirst(old(View(list)), id, WithPaths)
  {
    var i := Find(list, id);
    if i < |list| {
      var t := list[i];
      t.outputKeys := Deduplicated(t.outputKeys + ["true", "false"]);
      t.settings := t.settings[TrueBranch := Or(t.settings, TrueBranch, Text("continue"))]
                              [FalseBranch := Or(t.settings, FalseBranch, Text("skip"))];
    }
  }

  method AppendNode(nodes: seq<HarnessNode>, n: Node) returns (result: seq<HarnessNode>)
    requires NoSharing(nodes)
    ensures View(result) == View(nodes) + [n]
    ensures NoSharing(result) && Known(nodes, result)
  {
    var added := new HarnessNode(n);
    result := nodes + [added];
  }

  /** Applies a repair: the result shares the given objects, which are written in place. */
  method ApplyRepairAction(nodes: seq<HarnessNode>, a: RepairAction, newId: string) returns (result: seq<HarnessNode>)
    requires NoSharing(nodes)
    modifies nodes
    ensures View(result) == Apply(old(View(nodes)), a, newId)
    ensures NoSharing(result) && Known(nodes, result)
  {
    result := nodes;
    match a {
      case AddTrigger => result := AddTriggerTo(nodes, newId);
      case AddExitNode => result := AppendNode(nodes, ExitNode(newId, |nodes| + 1));
      case AddMonitor => result := AddMonitorTo(nodes, newId);
      case InjectRetry(None) => RetryEach(result);
      case InjectRetry(Some(id)) =>
        if id != "" {
          RetryFirst(result, id);
        } else {
          RetryEach(result);
        }
      case SetBranchPredicate(id) =>
        if id != "" {
          PredicateFirst(result, id);
        }
      case AddBranchPaths(id) =>
        if id != "" {
          PathsFirst(result, id);
        }
      case AddApproval(id) => result := AddApprovalTo(nodes, id, newId);
    }
  }
}
