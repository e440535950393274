/** Which nodes count as what, and what a list needs to be called so. */
module BuilderRoles {
  import opened Wrappers
  import opened BuilderNodes
  import opened BuilderValidation
  import opened BuilderEffects
  import opened BuilderReadiness

  /** The roles of a node by its type, action and connector. */
  lemma RolesMean(n: Node)
    ensures n.IsTrigger() <==> n.kind in {Schedule, Webhook}
    ensures n.IsExit() <==> n.kind in {DataStorage, Notification, EmailSend, SlackMessage, LogMonitor}
    ensures n.IsAudit() <==> n.connectorKey == MetisAudit || n.kind in {LogMonitor, DataStorage}
    ensures n.IsBranch() <==> n.kind in {ConditionNode, Branch, IfElse, Switch}
    ensures n.IsAction() <==> n.actionType in {Execute, Write, Deploy, Delete}
    ensures n.IsDeploy() <==> n.kind == GitDeploy || n.actionType in {Deploy, Delete}
    ensures n.IsRisky() <==>
            n.actionType in {Deploy, Delete, ExternalSend, Write}
            || n.kind in {GitDeploy, EmailSend, SlackMessage, Notification, ApiCall, Webhook}
  {
  }

  /** What a node lacks. */
  lemma LacksMean(n: Node)
    ensures n.LacksFailurePath() <==> n.failureAction in {Unset, Stop}
    ensures n.LacksRetry() <==> n.actionType in {Write, ExternalSend} && n.retryCount == 0
    ensures n.LacksPredicate() <==>
            n.IsBranch() && forall key :: key in {Condition, Predicate, Expression} ==> Unsaid(n.settings, key)
    ensures n.LacksPath() <==>
            n.IsBranch()
            && ((Unsaid(n.settings, TrueBranch) && "true" !in n.outputKeys && "yes" !in n.outputKeys)
                || (Unsaid(n.settings, FalseBranch) && "false" !in n.outputKeys && "no" !in n.outputKeys))
  {
    forall key
      ensures Given(n.settings, key) <==> !Unsaid(n.settings, key)
    {
      GivenIsSaid(n.settings, key);
    }
  }

  /** The properties that are counted. */
  lemma CountedMean(n: Node)
    ensures NO_FAILURE_PATH(n) == n.LacksFailurePath() && NO_RETRY(n) == n.LacksRetry()
    ensures NO_PREDICATE(n) == n.LacksPredicate() && NO_PATH(n) == n.LacksPath()
    ensures RISKY(n) == n.IsRisky() && COVERED(n) == n.policyCheckpoint
    ensures UNAPPROVED(n) <==> n.IsDeploy() && !n.humanApproval
  {
  }

  /** What a list is said to be. */
  lemma ListsMean(nodes: seq<Node>)
    ensures Notifies(nodes) <==> exists n :: n in nodes && n.kind in {Notification, SlackMessage, EmailSend}
    ensures HasApproval(nodes) <==> exists n :: n in nodes && (n.humanApproval || n.kind == WaitApproval)
    ensures HasAuditLog(nodes) <==> exists n :: n in nodes && (n.connectorKey == MetisAudit || n.kind == LogMonitor)
    ensures HasEvidence(nodes) <==> exists n :: n in nodes && n.connectorKey == MetisEvidence
    ensures HasMonitor(nodes) <==> exists n :: n in nodes && n.kind == LogMonitor
  {
  }

  // ---- Scores ----

  ghost function Within(x: int): int {
    if x <= 0 then 0 else if x >= 100 then 100 else x
  }

  ghost function If(condition: bool, points: int): int {
    if condition then points else 0
  }

  /** Each missing connector costs thirty points and each placeholder ten; without connectors the score is seventy. */
  lemma ConnectorsMean(gaps: Gaps)
    ensures ConnectorScore(gaps) ==
            if gaps == Gaps(0, gaps.missing, gaps.placeholder) then 70
            else Within(100 - (30 * gaps.missing + 10 * gaps.placeholder))
  {
  }

  /** Each blocking error costs forty points, and each structural lack its own. */
  lemma ExecutionMeans(nodes: seq<Node>, blocking: nat)
    ensures ExecutionScore(nodes, blocking) ==
            Within(100 - (40 * blocking
                          + If(nodes != [] && nodes[0].kind !in {Schedule, Webhook}, 15)
                          + If(nodes != [] && !nodes[|nodes| - 1].IsExit(), 10)
                          + If(Count(nodes, NO_FAILURE_PATH) > |nodes| - Count(nodes, NO_FAILURE_PATH), 15)
                          + If(nodes == [] || |nodes| == 1, 20)))
  {
  }

  lemma UsabilityMeans(nodes: seq<Node>)
    ensures UsabilityScore(nodes) ==
            100 - (If(|nodes| > 2 && !Notifies(nodes), 20) + If(Count(nodes, RISKY) != 0 && !HasApproval(nodes), 15))
  {
  }

  lemma MonitoringMeans(nodes: seq<Node>)
    ensures MonitoringScore(nodes) ==
            100 - (If(!HasAuditLog(nodes), 30) + If(|nodes| > 4 && !HasEvidence(nodes), 15)
                   + If(|nodes| > 3 && !HasMonitor(nodes), 15))
  {
  }

  lemma Scaled(a: real, b: real, q: real, product: real)
    requires q > 0.0 && b * q == product
    ensures a <= b <==> a * q <= product
  {
    assert (b - a) * q == b * q - a * q;
    if a <= b {
      assert (b - a) * q >= 0.0;
    } else {
      assert (a - b) * q > 0.0;
      assert (a - b) * q == a * q - b * q;
    }
  }

  /** A quotient is rounded to the nearest integer, halves upwards. */
  lemma RoundMeans(x: real, p: real, q: real, r: int)
    requires q > 0.0 && x * q == p
    ensures Round(x) == r <==> (2 * r - 1) as real * q <= 2.0 * p < (2 * r + 1) as real * q
  {
    assert 2.0 * x * q == 2.0 * p;
    Scaled((2 * r - 1) as real, 2.0 * x, q, 2.0 * p);
    Scaled((2 * r + 1) as real, 2.0 * x, q, 2.0 * p);
    assert Round(x) == r <==> (2 * r - 1) as real <= 2.0 * x && !((2 * r + 1) as real <= 2.0 * x);
  }

  /** The uncovered share of the risky nodes costs up to forty points, rounded. */
  lemma CoverageMeans(risky: nat, covered: nat, loss: int)
    requires covered < risky
    ensures CoverageLoss(risky, covered) == loss <==>
            (2 * loss - 1) * risky <= 80 * (risky - covered) < (2 * loss + 1) * risky
  {
    var q, share := risky as real, covered as real / risky as real;
    var p := 40.0 * (q - covered as real);
    assert share * q == covered as real;
    assert (1.0 - share) * q == q - covered as real;
    assert (1.0 - share) * 40.0 * q == p;
    RoundMeans((1.0 - share) * 40.0, p, q, loss);
    assert (2 * loss - 1) as real * q == ((2 * loss - 1) * risky) as real;
    assert (2 * loss + 1) as real * q == ((2 * loss + 1) * risky) as real;
    assert 2.0 * p == (80 * (risky - covered)) as real;
  }

  /** Nothing is lost where all risky nodes are covered; each missing approval costs fifteen points. */
  lemma PolicyMeans(nodes: seq<Node>, inserted: nat)
    ensures var risky, covered := Count(nodes, RISKY), Count(nodes, COVERED) + inserted;
            PolicyScore(nodes, inserted) ==
            Within(100 - (15 * Count(nodes, UNAPPROVED) + if covered < risky then CoverageLoss(risky, covered) else 0))
  {
  }

  /** The overall score weighs the axes as 6 to 4 to 4 to 3 to 3, out of twenty, rounded with halves upwards. */
  lemma OverallMeans(nodes: seq<Node>, gaps: Gaps, inserted: nat, blocking: nat)
    ensures var s := Readiness(nodes, gaps, inserted, blocking);
            var weighed := 6 * s.execution + 4 * s.connectors + 4 * s.policy + 3 * s.usability + 3 * s.monitoring;
            && 20 * s.overall - 10 <= weighed < 20 * s.overall + 10
            && s.execution == ExecutionScore(nodes, blocking) && s.connectors == ConnectorScore(gaps)
            && s.policy == PolicyScore(nodes, inserted)
            && s.usability == UsabilityScore(nodes) && s.monitoring == MonitoringScore(nodes)
  {
  }

  // ---- Reports ----

  /** An empty list has one blocking error; otherwise the list is valid exactly if no branch lacks a predicate. */
  lemma ReportMeans(nodes: seq<Node>)
    ensures var v := Validate(nodes);
            && (v.isValid <==> nodes != [] && forall n :: n in nodes ==> !n.LacksPredicate())
            && (v.isValid <==> v.blockingErrors == [])
            && (v.canSaveWithWarnings <==> v.isValid && v.warnings != [])
            && (nodes == [] ==> v.blockingErrors == [Issue(NoNodes, Some(AddTrigger))] && v.warnings == []
                                && v.repairActions == [])
            && (nodes != [] && nodes[0].kind !in {Schedule, Webhook} ==>
                  v.repairActions != [] && v.repairActions[0] == AddTrigger)
  {
    ErrorsAreCounted(nodes);
    CountZero(nodes, NO_PREDICATE);
  }

  /** The repairs offered are those of the issues, errors first; the trigger repair is listed once more, in front. */
  lemma {:induction false} RepairsMean(issues: seq<Issue>, a: RepairAction)
    ensures a in Repairs(issues) <==> exists issue :: issue in issues && issue.repair == Some(a)
  {
    if issues != [] {
      RepairsMean(issues[..|issues| - 1], a);
      assert forall issue :: issue in issues <==> issue in issues[..|issues| - 1] || issue == issues[|issues| - 1];
    }
  }
}
