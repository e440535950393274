/** What each repair writes and what it keeps, said of the fields of the nodes. */
module BuilderEffects {
  import opened Wrappers
  import opened BuilderNodes
  import opened BuilderValidation
  import opened BuilderRepair

  /** A setting that says nothing: absent, or the empty text, the number zero or the flag false. */
  ghost predicate Unsaid(settings: Settings, key: SettingKey) {
    key !in settings || settings[key] in {Absent, Text(""), Number(0.0), Flag(false)}
  }

  lemma GivenIsSaid(settings: Settings, key: SettingKey)
    ensures Given(settings, key) <==> !Unsaid(settings, key)
  {
  }

  /** The first node of the list with the id, which must not be empty. */
  ghost predicate IsTarget(nodes: seq<Node>, id: string, i: nat)
    requires i < |nodes|
  {
    id != "" && nodes[i].id == id && forall j :: 0 <= j < i ==> nodes[j].id != id
  }

  ghost predicate SameSettingsExcept(n: Node, m: Node, keys: set<SettingKey>) {
    forall key :: key !in keys ==> (key in m.settings <==> key in n.settings)
                                   && (key in m.settings ==> m.settings[key] == n.settings[key])
  }

  // ---- Retries ----

  /** The node now retries twice, and is otherwise as before. */
  ghost predicate Retries(n: Node, m: Node) {
    && m.failureAction == Retry && m.retryCount == 2
    && m.(failureAction := n.failureAction, retryCount := n.retryCount) == n
  }

  /** The retry repair of one node changes its retry fields, and no other node. */
  lemma RetryOneMeans(nodes: seq<Node>, id: string, newId: string)
    requires id != ""
    ensures var r := Apply(nodes, InjectRetry(Some(id)), newId);
            && |r| == |nodes|
            && forall i :: 0 <= i < |nodes| ==>
                 if IsTarget(nodes, id, i) then Retries(nodes[i], r[i]) else r[i] == nodes[i]
  {
  }

  /** The global one does so for every write or send without a retry. */
  lemma RetryAllMeans(nodes: seq<Node>, a: RepairAction, newId: string)
    requires a == InjectRetry(None) || a == InjectRetry(Some(""))
    ensures var r := Apply(nodes, a, newId);
            && |r| == |nodes|
            && forall i :: 0 <= i < |nodes| ==>
                 if nodes[i].actionType in {Write, ExternalSend} && nodes[i].retryCount == 0
                 then Retries(nodes[i], r[i]) else r[i] == nodes[i]
  {
  }

  // ---- Predicates ----

  /** The node now has the three predicate settings, and is otherwise as before. */
  ghost predicate HasDefaultPredicate(n: Node, m: Node) {
    && {Condition, Predicate, Expression} <= m.settings.Keys
    && m.settings[Condition] == Text("true") && m.settings[Predicate] == Text("default")
    && m.settings[Expression] == Text("true")
    && SameSettingsExcept(n, m, {Condition, Predicate, Expression})
    && m.(settings := n.settings) == n
  }

  lemma PredicateMeans(nodes: seq<Node>, id: string, newId: string)
    ensures var r := Apply(nodes, SetBranchPredicate(id), newId);
            && |r| == |nodes|
            && forall i :: 0 <= i < |nodes| ==>
                 if IsTarget(nodes, id, i) then HasDefaultPredicate(nodes[i], r[i]) else r[i] == nodes[i]
  {
  }

  // ---- Paths ----

  /** The place of a key's first occurrence. */
  ghost predicate FirstOccurs(keys: seq<string>, key: string, i: nat) {
    i < |keys| && keys[i] == key && forall j :: 0 <= j < i ==> keys[j] != key
  }

  /** The keys in order of first occurrence, each once. */
  ghost predicate InOrder(keys: seq<string>, r: seq<string>) {
    && (forall k :: k in r <==> k in keys)
    && (forall a: nat, b: nat :: a < b < |r| ==> r[a] != r[b])
    && (forall a: nat, b: nat, i: nat, j: nat ::
          a < b < |r| && FirstOccurs(keys, r[a], i) && FirstOccurs(keys, r[b], j) ==> i < j)
  }

  lemma FirstOccursBefore(keys: seq<string>, last: string, key: string, i: nat)
    requires FirstOccurs(keys + [last], key, i) && key in keys
    ensures FirstOccurs(keys, key, i)
  {
    var k :| 0 <= k < |keys| && keys[k] == key;
    assert (keys + [last])[k] == key && i <= k;
    assert forall j :: 0 <= j < i && j < |keys| ==> keys[j] == (keys + [last])[j];
  }

  lemma InOrderSnoc(keys: seq<string>, last: string, r: seq<string>)
    requires InOrder(keys, r)
    ensures InOrder(keys + [last], if last in r then r else r + [last])
  {
    var more := if last in r then r else r + [last];
    forall a: nat, b: nat, i: nat, j: nat
      | a < b < |more| && FirstOccurs(keys + [last], more[a], i) && FirstOccurs(keys + [last], more[b], j)
      ensures i < j
    {
      FirstOccursBefore(keys, last, more[a], i);
      if b < |r| {
        FirstOccursBefore(keys, last, more[b], j);
      } else {
        assert (keys + [last])[..|keys|] == keys;
        assert forall k :: 0 <= k < |keys| ==> (keys + [last])[k] in keys;
      }
    }
  }

  lemma {:induction false} DeduplicatedInOrder(keys: seq<string>)
    ensures InOrder(keys, Deduplicated(keys))
  {
    if keys != [] {
      var before, last := keys[..|keys| - 1], keys[|keys| - 1];
      DeduplicatedInOrder(before);
      InOrderSnoc(before, last, Deduplicated(before));
      assert before + [last] == keys;
    }
  }

  /** The setting is kept where it says something, and else the given text. */
  ghost predicate KeptOr(n: Node, m: Node, key: SettingKey, text: string) {
    && key in m.settings
    && if Unsaid(n.settings, key) then m.settings[key] == Text(text) else m.settings[key] == n.settings[key]
  }

  /** The node now has both paths, keeps those it had, and is otherwise as before. */
  ghost predicate HasBothPaths(n: Node, m: Node) {
    && KeptOr(n, m, TrueBranch, "continue") && KeptOr(n, m, FalseBranch, "skip")
    && SameSettingsExcept(n, m, {TrueBranch, FalseBranch})
    && InOrder(n.outputKeys + ["true", "false"], m.outputKeys)
    && m.(settings := n.settings, outputKeys := n.outputKeys) == n
  }

  lemma WithPathsMeans(n: Node)
    ensures HasBothPaths(n, WithPaths(n))
  {
    GivenIsSaid(n.settings, TrueBranch);
    GivenIsSaid(n.settings, FalseBranch);
    DeduplicatedInOrder(n.outputKeys + ["true", "false"]);
  }

  lemma PathsMean(nodes: seq<Node>, id: string, newId: string)
    ensures var r := Apply(nodes, AddBranchPaths(id), newId);
            && |r| == |nodes|
            && forall i :: 0 <= i < |nodes| ==>
                 if IsTarget(nodes, id, i) then HasBothPaths(nodes[i], r[i]) else r[i] == nodes[i]
  {
    forall i | 0 <= i < |nodes|
      ensures HasBothPaths(nodes[i], WithPaths(nodes[i]))
    {
      WithPathsMeans(nodes[i]);
    }
  }

  // ---- Added nodes ----

  /** The nodes but for their order, which counts from one. */
  ghost predicate Reordered(nodes: seq<Node>, r: seq<Node>) {
    && |r| == |nodes|
    && forall i :: 0 <= i < |nodes| ==> r[i].order == i + 1 && r[i].(order := nodes[i].order) == nodes[i]
  }

  ghost predicate IsNewTrigger(n: Node, id: string) {
    n.id == id && n.kind == Schedule && n.actionType == Read && n.failureAction == Stop && n.retryCount == 0
    && n.connectorKey == NoConnector && !n.humanApproval && !n.policyCheckpoint && n.outputKeys == ["trigger_event"]
  }

  ghost predicate IsNewExit(n: Node, id: string, order: int) {
    n.id == id && n.kind == Notification && n.actionType == Write && n.failureAction == Skip && n.retryCount == 0
    && n.connectorKey == NoConnector && !n.humanApproval && !n.policyCheckpoint && n.outputKeys == ["notification_sent"]
    && n.order == order
  }

  ghost predicate IsNewMonitor(n: Node, id: string) {
    n.id == id && n.kind == LogMonitor && n.actionType == Write && n.failureAction == Skip && n.retryCount == 0
    && n.connectorKey == MetisAudit && !n.humanApproval && !n.policyCheckpoint && n.outputKeys == ["audit_id"]
  }

  ghost predicate IsNewApproval(n: Node, id: string) {
    n.id == id && n.kind == WaitApproval && n.actionType == Read && n.failureAction == Stop && n.retryCount == 0
    && n.connectorKey == NoConnector && n.humanApproval && !n.policyCheckpoint && n.outputKeys == ["approval_result"]
  }

  /** A trigger comes first and a monitor last, with the orders counted anew; an exit comes last with the next one. */
  lemma AdditionsMean(nodes: seq<Node>, newId: string)
    ensures exists t :: IsNewTrigger(t, newId) && Reordered([t] + nodes, Apply(nodes, AddTrigger, newId))
    ensures exists t :: IsNewExit(t, newId, |nodes| + 1) && Apply(nodes, AddExitNode, newId) == nodes + [t]
    ensures exists t :: IsNewMonitor(t, newId) && Reordered(nodes + [t], Apply(nodes, AddMonitor, newId))
  {
    assert IsNewTrigger(TriggerNode(newId), newId);
    var exit := ExitNode(newId, |nodes| + 1);
    assert IsNewExit(exit, newId, |nodes| + 1) && Apply(nodes, AddExitNode, newId) == nodes + [exit];
    assert IsNewMonitor(MonitorNode(newId, |nodes| + 1), newId);
  }

  ghost predicate ApprovalAt(nodes: seq<Node>, i: nat, newId: string, t: Node, r: seq<Node>)
    requires i <= |nodes|
  {
    IsNewApproval(t, newId) && Reordered(nodes[..i] + [t] + nodes[i..], r)
  }

  /** An approval comes right before its target, with the orders counted anew; without a target nothing changes. */
  lemma ApprovalMeans(nodes: seq<Node>, id: string, newId: string, i: nat)
    ensures i < |nodes| && IsTarget(nodes, id, i) ==>
              exists t :: ApprovalAt(nodes, i, newId, t, Apply(nodes, AddApproval(id), newId))
    ensures (forall j :: 0 <= j < |nodes| ==> !IsTarget(nodes, id, j)) ==> Apply(nodes, AddApproval(id), newId) == nodes
  {
    var k := IndexOf(nodes, id);
    assert k < |nodes| && id != "" ==> IsTarget(nodes, id, k);
    if i < |nodes| && IsTarget(nodes, id, i) {
      var t := ApprovalNode(newId, i + 1);
      assert k == i;
      assert ApprovalAt(nodes, i, newId, t, Apply(nodes, AddApproval(id), newId));
    }
  }
}
