/** Structural validation: which issues a node list has, and which repair each offers. */
module BuilderValidation {
  import opened Wrappers
  import opened BuilderNodes

  datatype RepairAction =
    | AddTrigger
    | AddExitNode
    | AddMonitor
    | InjectRetry(nodeId: Option<string>)
    | SetBranchPredicate(target: string)
    | AddBranchPaths(target: string)
    | AddApproval(target: string)

  datatype Kind =
    | NoNodes
    | NoTrigger
    | NoExit
    | NoFailurePaths
    | NoRetry(nodeId: string)
    | NoMonitoring
    | NoPredicate(nodeId: string)
    | MissingPaths(nodeId: string, noTrue: bool, noFalse: bool)
    | NotifyOnly

  datatype Issue = Issue(kind: Kind, repair: Option<RepairAction>)

  datatype Validation = Validation(
    blockingErrors: seq<Issue>, warnings: seq<Issue>, repairActions: seq<RepairAction>,
    isValid: bool, canSaveWithWarnings: bool)

  function RetryWarnings(nodes: seq<Node>): seq<Issue> {
    if nodes == [] then []
    else
      var n := nodes[|nodes| - 1];
      RetryWarnings(nodes[..|nodes| - 1]) +
      if n.LacksRetry() then [Issue(NoRetry(n.id), Some(InjectRetry(Some(n.id))))] else []
  }

  function PredicateErrors(nodes: seq<Node>): seq<Issue> {
    if nodes == [] then []
    else
      var n := nodes[|nodes| - 1];
      PredicateErrors(nodes[..|nodes| - 1]) +
      if n.LacksPredicate() then [Issue(NoPredicate(n.id), Some(SetBranchPredicate(n.id)))] else []
  }

  function PathWarnings(nodes: seq<Node>): seq<Issue> {
    if nodes == [] then []
    else
      var n := nodes[|nodes| - 1];
      PathWarnings(nodes[..|nodes| - 1]) +
      if n.LacksPath() then
        [Issue(MissingPaths(n.id, !n.HasTruePath(), !n.HasFalsePath()), Some(AddBranchPaths(n.id)))]
      else []
  }

  function When(condition: bool, issue: Issue): seq<Issue> {
    if condition then [issue] else []
  }

  predicate NoAudit(nodes: seq<Node>) {
    forall n :: n in nodes ==> !n.IsAudit()
  }

  predicate MostLackFailurePath(nodes: seq<Node>) {
    2 * Count(nodes, NO_FAILURE_PATH) > |nodes|
  }

  predicate OnlyNotifies(nodes: seq<Node>) {
    |nodes| > 1 && forall n :: n in nodes ==> !n.IsAction()
  }

  function StructureWarnings(noTrigger: bool, noExit: bool, noFailurePaths: bool): seq<Issue> {
    When(noTrigger, Issue(NoTrigger, Some(AddTrigger))) +
    When(noExit, Issue(NoExit, Some(AddExitNode))) +
    When(noFailurePaths, Issue(NoFailurePaths, Some(InjectRetry(None))))
  }

  function Assemble(retry: seq<Issue>, noMonitor: bool, paths: seq<Issue>, notify: bool): seq<Issue> {
    retry + (When(noMonitor, Issue(NoMonitoring, Some(AddMonitor))) + (paths + When(notify, Issue(NotifyOnly, None))))
  }

  function NodeWarnings(nodes: seq<Node>): seq<Issue> {
    Assemble(RetryWarnings(nodes), NoAudit(nodes) && |nodes| >= 3, PathWarnings(nodes), OnlyNotifies(nodes))
  }

  /** The warnings in the order of the checks that raise them. */
  function Warnings(nodes: seq<Node>): seq<Issue>
    requires nodes != []
  {
    StructureWarnings(!nodes[0].IsTrigger(), !nodes[|nodes| - 1].IsExit(), MostLackFailurePath(nodes)) +
    NodeWarnings(nodes)
  }

  function Repairs(issues: seq<Issue>): seq<RepairAction> {
    if issues == [] then []
    else
      var last := issues[|issues| - 1];
      Repairs(issues[..|issues| - 1]) + if last.repair.Some? then [last.repair.value] else []
  }

  /** The trigger repair is listed twice, once by itself and once with its warning. */
  function Report(noTrigger: bool, errors: seq<Issue>, warnings: seq<Issue>): Validation {
    Validation(errors, warnings, (if noTrigger then [AddTrigger] else []) + Repairs(errors) + Repairs(warnings),
               errors == [], errors == [] && warnings != [])
  }

  /** What validation reports. */
  function Validate(nodes: seq<Node>): Validation {
    if nodes == [] then Validation([Issue(NoNodes, Some(AddTrigger))], [], [], false, false)
    else Report(!nodes[0].IsTrigger(), PredicateErrors(nodes), Warnings(nodes))
  }

  lemma Regroup(a: seq<Issue>, b: seq<Issue>, c: seq<Issue>, d: seq<Issue>, e: seq<Issue>)
    ensures a + b + c + d + e == a + (b + (c + (d + e)))
  {
  }

  method AddRetryWarnings(nodes: seq<Node>, before: seq<Issue>) returns (warnings: seq<Issue>)
    ensures warnings == before + RetryWarnings(nodes)
  {
    warnings := before;
    for i := 0 to |nodes|
      invariant warnings == before + RetryWarnings(nodes[..i])
    {
      assert nodes[..i + 1][..i] == nodes[..i];
      if nodes[i].LacksRetry() {
        warnings := warnings + [Issue(NoRetry(nodes[i].id), Some(InjectRetry(Some(nodes[i].id))))];
      }
    }
    assert nodes[..|nodes|] == nodes;
  }

  method CheckBranches(nodes: seq<Node>, errorsBefore: seq<Issue>, warningsBefore: seq<Issue>)
    returns (errors: seq<Issue>, warnings: seq<Issue>)
    ensures errors == errorsBefore + PredicateErrors(nodes)
    ensures warnings == warningsBefore + PathWarnings(nodes)
  {
    errors, warnings := errorsBefore, warningsBefore;
    for i := 0 to |nodes|
      invariant errors == errorsBefore + PredicateErrors(nodes[..i])
      invariant warnings == warningsBefore + PathWarnings(nodes[..i])
    {
      var n := nodes[i];
      assert nodes[..i + 1][..i] == nodes[..i];
      if n.IsBranch() {
        if !n.HasPredicate() {
          errors := errors + [Issue(NoPredicate(n.id), Some(SetBranchPredicate(n.id)))];
        }
        if !n.HasTruePath() || !n.HasFalsePath() {
          warnings := warnings +
            [Issue(MissingPaths(n.id, !n.HasTruePath(), !n.HasFalsePath()), Some(AddBranchPaths(n.id)))];
        }
      }
    }
    assert nodes[..|nodes|] == nodes;
  }

  method CheckNodes(nodes: seq<Node>, before: seq<Issue>) returns (errors: seq<Issue>, warnings: seq<Issue>)
    ensures errors == PredicateErrors(nodes)
    ensures warnings == before + NodeWarnings(nodes)
  {
    warnings := AddRetryWarnings(nodes, before);
    var noMonitor := NoAudit(nodes) && |nodes| >= 3;
    if noMonitor {
      warnings := warnings + [Issue(NoMonitoring, Some(AddMonitor))];
    }
    ghost var monitoring := When(noMonitor, Issue(NoMonitoring, Some(AddMonitor)));
    assert warnings == before + RetryWarnings(nodes) + monitoring;
    errors, warnings := CheckBranches(nodes, [], warnings);
    var notify := OnlyNotifies(nodes);
    if notify {
      warnings := warnings + [Issue(NotifyOnly, None)];
    }
    Regroup(before, RetryWarnings(nodes), monitoring, PathWarnings(nodes), When(notify, Issue(NotifyOnly, None)));
  }

  method CheckStructure(noTrigger: bool, noExit: bool, noFailurePaths: bool) returns (warnings: seq<Issue>)
    ensures warnings == StructureWarnings(noTrigger, noExit, noFailurePaths)
  {
    warnings := [];
    if noTrigger {
      warnings := warnings + [Issue(NoTrigger, Some(AddTrigger))];
    }
    if noExit {
      warnings := warnings + [Issue(NoExit, Some(AddExitNode))];
    }
    if noFailurePaths {
      warnings := warnings + [Issue(NoFailurePaths, Some(InjectRetry(None)))];
    }
  }

  method ValidateStructure(nodes: seq<Node>) returns (v: Validation)
    ensures v == Validate(nodes)
  {
    if nodes == [] {
      return Validation([Issue(NoNodes, Some(AddTrigger))], [], [], false, false);
    }
    var warnings := CheckStructure(!nodes[0].IsTrigger(), !nodes[|nodes| - 1].IsExit(), MostLackFailurePath(nodes));
    var blockingErrors;
    blockingErrors, warnings := CheckNodes(nodes, warnings);
    v := Report(!nodes[0].IsTrigger(), blockingErrors, warnings);
  }

  // ---- What the report means ----

  /** Validation of the list offers the repair with one of its issues. */
  ghost predicate Offers(nodes: seq<Node>, a: RepairAction) {
    exists issue :: (issue in Validate(nodes).blockingErrors || issue in Validate(nodes).warnings)
      && issue.repair == Some(a)
  }

  /** When each repair is due, said of the nodes themselves. */
  ghost predicate Due(nodes: seq<Node>, a: RepairAction) {
    match a
    case AddTrigger => nodes == [] || !nodes[0].IsTrigger()
    case AddExitNode => nodes != [] && !nodes[|nodes| - 1].IsExit()
    case AddMonitor => |nodes| >= 3 && NoAudit(nodes)
    case InjectRetry(None) => nodes != [] && MostLackFailurePath(nodes)
    case InjectRetry(Some(id)) => exists n :: n in nodes && n.id == id && n.LacksRetry()
    case SetBranchPredicate(id) => exists n :: n in nodes && n.id == id && n.LacksPredicate()
    case AddBranchPaths(id) => exists n :: n in nodes && n.id == id && n.LacksPath()
    case AddApproval(_) => false
  }

  lemma {:induction false} RetryWarningsMean(nodes: seq<Node>, issue: Issue)
    ensures issue in RetryWarnings(nodes) <==>
            exists n :: n in nodes && n.LacksRetry() && issue == Issue(NoRetry(n.id), Some(InjectRetry(Some(n.id))))
  {
    if nodes != [] {
      RetryWarningsMean(nodes[..|nodes| - 1], issue);
      assert forall n :: n in nodes <==> n in nodes[..|nodes| - 1] || n == nodes[|nodes| - 1];
    }
  }

  lemma {:induction false} PredicateErrorsMean(nodes: seq<Node>, issue: Issue)
    ensures issue in PredicateErrors(nodes) <==>
            exists n :: n in nodes && n.LacksPredicate()
              && issue == Issue(NoPredicate(n.id), Some(SetBranchPredicate(n.id)))
  {
    if nodes != [] {
      PredicateErrorsMean(nodes[..|nodes| - 1], issue);
      assert forall n :: n in nodes <==> n in nodes[..|nodes| - 1] || n == nodes[|nodes| - 1];
    }
  }

  lemma {:induction false} PathWarningsMean(nodes: seq<Node>, issue: Issue)
    ensures issue in PathWarnings(nodes) <==>
            exists n :: n in nodes && n.LacksPath() &&
              issue == Issue(MissingPaths(n.id, !n.HasTruePath(), !n.HasFalsePath()), Some(AddBranchPaths(n.id)))
  {
    if nodes != [] {
      PathWarningsMean(nodes[..|nodes| - 1], issue);
      assert forall n :: n in nodes <==> n in nodes[..|nodes| - 1] || n == nodes[|nodes| - 1];
    }
  }

  lemma {:induction false} ListedKinds(nodes: seq<Node>, issue: Issue)
    ensures issue in RetryWarnings(nodes) ==> issue.kind.NoRetry?
    ensures issue in PathWarnings(nodes) ==> issue.kind.MissingPaths?
  {
    if nodes != [] {
      ListedKinds(nodes[..|nodes| - 1], issue);
    }
  }

  lemma StructureWarningsMean(noTrigger: bool, noExit: bool, noFailurePaths: bool, issue: Issue)
    ensures issue in StructureWarnings(noTrigger, noExit, noFailurePaths) <==>
            match issue.kind
            case NoTrigger => issue.repair == Some(AddTrigger) && noTrigger
            case NoExit => issue.repair == Some(AddExitNode) && noExit
            case NoFailurePaths => issue.repair == Some(InjectRetry(None)) && noFailurePaths
            case _ => false
  {
  }

  lemma AssembleMeans(retry: seq<Issue>, noMonitor: bool, paths: seq<Issue>, notify: bool, issue: Issue)
    requires issue in retry ==> issue.kind.NoRetry?
    requires issue in paths ==> issue.kind.MissingPaths?
    ensures issue in Assemble(retry, noMonitor, paths, notify) <==>
            match issue.kind
            case NoMonitoring => issue.repair == Some(AddMonitor) && noMonitor
            case NotifyOnly => issue.repair == None && notify
            case NoRetry(_) => issue in retry
            case MissingPaths(_, _, _) => issue in paths
            case _ => false
  {
  }

  /** Each kind of warning is reported exactly when its condition holds. */
  lemma WarningsMean(nodes: seq<Node>, issue: Issue)
    requires nodes != []
    ensures issue in Warnings(nodes) <==>
            match issue.kind
            case NoTrigger => issue.repair == Some(AddTrigger) && !nodes[0].IsTrigger()
            case NoExit => issue.repair == Some(AddExitNode) && !nodes[|nodes| - 1].IsExit()
            case NoFailurePaths =>
              issue.repair == Some(InjectRetry(None)) && 2 * Count(nodes, NO_FAILURE_PATH) > |nodes|
            case NoMonitoring =>
              issue.repair == Some(AddMonitor) && |nodes| >= 3 && forall n :: n in nodes ==> !n.IsAudit()
            case NotifyOnly => issue.repair == None && |nodes| >= 2 && forall n :: n in nodes ==> !n.IsAction()
            case NoRetry(id) =>
              issue.repair == Some(InjectRetry(Some(id))) && exists n :: n in nodes && n.id == id && n.LacksRetry()
            case MissingPaths(id, noTrue, noFalse) =>
              issue.repair == Some(AddBranchPaths(id))
              && exists n :: n in nodes && n.id == id && n.IsBranch() && (noTrue || noFalse)
                             && n.HasTruePath() == !noTrue && n.HasFalsePath() == !noFalse
            case _ => false
  {
    RetryWarningsMean(nodes, issue);
    PathWarningsMean(nodes, issue);
    var noTrigger, noExit, noFailure := !nodes[0].IsTrigger(), !nodes[|nodes| - 1].IsExit(), MostLackFailurePath(nodes);
    StructureWarningsMean(noTrigger, noExit, noFailure, issue);
    ListedKinds(nodes, issue);
    AssembleMeans(RetryWarnings(nodes), NoAudit(nodes) && |nodes| >= 3, PathWarnings(nodes), OnlyNotifies(nodes),
                  issue);
    var structure, rest := StructureWarnings(noTrigger, noExit, noFailure), NodeWarnings(nodes);
    assert issue in structure + rest <==> issue in structure || issue in rest;
  }

  lemma OfferIsDue(nodes: seq<Node>, issue: Issue, a: RepairAction)
    requires nodes != [] && issue.repair == Some(a)
    requires issue in PredicateErrors(nodes) || issue in Warnings(nodes)
    ensures Due(nodes, a)
  {
    if issue in PredicateErrors(nodes) {
      PredicateErrorsMean(nodes, issue);
    } else {
      WarningsMean(nodes, issue);
      if issue in RetryWarnings(nodes) {
        RetryWarningsMean(nodes, issue);
      } else if issue in PathWarnings(nodes) {
        PathWarningsMean(nodes, issue);
      }
    }
  }

  lemma DueIssue(nodes: seq<Node>, a: RepairAction) returns (issue: Issue)
    requires nodes != [] && Due(nodes, a)
    ensures issue in Validate(nodes).blockingErrors || issue in Validate(nodes).warnings
    ensures issue.repair == Some(a)
  {
    match a {
      case AddTrigger => issue := Issue(NoTrigger, Some(a));
      case AddExitNode => issue := Issue(NoExit, Some(a));
      case AddMonitor => issue := Issue(NoMonitoring, Some(a));
      case InjectRetry(None) => issue := Issue(NoFailurePaths, Some(a));
      case InjectRetry(Some(id)) =>
        issue := Issue(NoRetry(id), Some(a));
        RetryWarningsMean(nodes, issue);
      case SetBranchPredicate(id) =>
        issue := Issue(NoPredicate(id), Some(a));
        PredicateErrorsMean(nodes, issue);
      case AddBranchPaths(id) =>
        var n :| n in nodes && n.id == id && n.LacksPath();
        issue := Issue(MissingPaths(id, !n.HasTruePath(), !n.HasFalsePath()), Some(a));
        PathWarningsMean(nodes, issue);
    }
    WarningsMean(nodes, issue);
  }

  /** The repairs offered are exactly the ones due. */
  lemma OffersExactlyDue(nodes: seq<Node>, a: RepairAction)
    ensures Offers(nodes, a) <==> Due(nodes, a)
  {
    if nodes == [] {
      assert Issue(NoNodes, Some(AddTrigger)) in Validate(nodes).blockingErrors;
    } else if Offers(nodes, a) {
      var issue :| (issue in Validate(nodes).blockingErrors || issue in Validate(nodes).warnings)
        && issue.repair == Some(a);
      OfferIsDue(nodes, issue, a);
    } else if Due(nodes, a) {
      var issue := DueIssue(nodes, a);
    }
  }
}
