/** The nodes of a workflow under construction, as values and as the objects that repairs change in place. */
module BuilderNodes {
  import opened Wrappers

  /** `OtherType` is any node type the engine does not look for by name. */
  datatype NodeType =
    | Schedule | Webhook
    | DataStorage | Notification | EmailSend | SlackMessage | LogMonitor
    | ConditionNode | Branch | IfElse | Switch
    | GitDeploy | ApiCall | WaitApproval
    | OtherType(name: string)

  datatype ActionType = Read | Write | Execute | ExternalSend | Deploy | Delete

  datatype FailureAction = Unset | Stop | Skip | Retry | Fallback

  datatype ConnectorKey = NoConnector | MetisAudit | MetisEvidence | OtherConnector(name: string)

  datatype SettingKey = Condition | Predicate | Expression | TrueBranch | FalseBranch | OtherKey(name: string)

  /** A setting's value; `Absent` is null or undefined, `Structured` an array or object. */
  datatype Setting = Absent | Text(s: string) | Number(n: real) | Flag(b: bool) | Structured

  type Settings = map<SettingKey, Setting>

  predicate Truthy(v: Setting) {
    match v
    case Absent => false
    case Text(s) => s != ""
    case Number(n) => n != 0.0
    case Flag(b) => b
    case Structured => true
  }

  predicate Given(settings: Settings, key: SettingKey) {
    key in settings && Truthy(settings[key])
  }

  /** One node; a `retryCount` of zero also stands for an absent one. */
  datatype Node = Node(
    id: string, kind: NodeType, actionType: ActionType, connectorKey: ConnectorKey,
    policyCheckpoint: bool, humanApproval: bool,
    order: int, failureAction: FailureAction, retryCount: int, outputKeys: seq<string>, settings: Settings)
  {
    predicate IsTrigger() { kind.Schedule? || kind.Webhook? }

    predicate IsExit() {
      kind.DataStorage? || kind.Notification? || kind.EmailSend? || kind.SlackMessage? || kind.LogMonitor?
    }

    predicate IsAudit() { connectorKey.MetisAudit? || kind.LogMonitor? || kind.DataStorage? }

    predicate IsBranch() { kind.ConditionNode? || kind.Branch? || kind.IfElse? || kind.Switch? }

    predicate LacksFailurePath() { failureAction.Unset? || failureAction.Stop? }

    predicate LacksRetry() { (actionType.Write? || actionType.ExternalSend?) && retryCount == 0 }

    predicate HasPredicate() {
      Given(settings, Condition) || Given(settings, Predicate) || Given(settings, Expression)
    }

    predicate HasTruePath() { Given(settings, TrueBranch) || "true" in outputKeys || "yes" in outputKeys }

    predicate HasFalsePath() { Given(settings, FalseBranch) || "false" in outputKeys || "no" in outputKeys }

    predicate LacksPredicate() { IsBranch() && !HasPredicate() }

    predicate LacksPath() { IsBranch() && (!HasTruePath() || !HasFalsePath()) }

    predicate IsAction() { actionType.Execute? || actionType.Write? || actionType.Deploy? || actionType.Delete? }

    predicate IsRisky() {
      || actionType.Deploy? || actionType.Delete? || actionType.ExternalSend? || actionType.Write?
      || kind.GitDeploy? || kind.EmailSend? || kind.SlackMessage? || kind.Notification? || kind.ApiCall?
      || kind.Webhook?
    }

    predicate IsDeploy() { kind.GitDeploy? || actionType.Deploy? || actionType.Delete? }
  }

  // The properties that are counted, as function values.
  const NO_FAILURE_PATH: Node -> bool := (n: Node) => n.LacksFailurePath()
  const NO_RETRY: Node -> bool := (n: Node) => n.LacksRetry()
  const NO_PREDICATE: Node -> bool := (n: Node) => n.LacksPredicate()
  const NO_PATH: Node -> bool := (n: Node) => n.LacksPath()

  ghost predicate UniqueIds(nodes: seq<Node>) {
    forall i, j :: 0 <= i < j < |nodes| ==> nodes[i].id != nodes[j].id
  }

  predicate HasId(nodes: seq<Node>, id: string) {
    exists i :: 0 <= i < |nodes| && nodes[i].id == id
  }

  /** The number of nodes with a property. */
  function Count(nodes: seq<Node>, p: Node -> bool): nat {
    if nodes == [] then 0
    else Count(nodes[..|nodes| - 1], p) + if p(nodes[|nodes| - 1]) then 1 else 0
  }

  lemma {:induction false} CountAppend(a: seq<Node>, b: seq<Node>, p: Node -> bool)
    ensures Count(a + b, p) == Count(a, p) + Count(b, p)
  {
    if b == [] {
      assert a + b == a;
    } else {
      assert (a + b)[..|a + b| - 1] == a + b[..|b| - 1];
      CountAppend(a, b[..|b| - 1], p);
    }
  }

  lemma {:induction false} CountAtMost(nodes: seq<Node>, p: Node -> bool)
    ensures Count(nodes, p) <= |nodes|
  {
    if nodes != [] {
      CountAtMost(nodes[..|nodes| - 1], p);
    }
  }

  lemma {:induction false} CountZero(nodes: seq<Node>, p: Node -> bool)
    ensures Count(nodes, p) == 0 <==> forall n :: n in nodes ==> !p(n)
  {
    if nodes != [] {
      var before := nodes[..|nodes| - 1];
      CountZero(before, p);
      assert forall n :: n in nodes <==> n in before || n == nodes[|nodes| - 1];
    }
  }

  /** Replacing one node changes a count only by that node. */
  lemma {:induction false} CountUpdate(nodes: seq<Node>, i: nat, n: Node, p: Node -> bool)
    requires i < |nodes|
    ensures Count(nodes[i := n], p) + (if p(nodes[i]) then 1 else 0) == Count(nodes, p) + if p(n) then 1 else 0
  {
    var k := |nodes| - 1;
    if i == k {
      assert nodes[i := n][..k] == nodes[..k];
    } else {
      assert nodes[i := n][..k] == nodes[..k][i := n];
      CountUpdate(nodes[..k], i, n, p);
    }
  }

  lemma {:induction false} CountSame(a: seq<Node>, b: seq<Node>, p: Node -> bool)
    requires |a| == |b| && forall i :: 0 <= i < |a| ==> p(a[i]) == p(b[i])
    ensures Count(a, p) == Count(b, p)
  {
    if a != [] {
      CountSame(a[..|a| - 1], b[..|b| - 1], p);
    }
  }
}
