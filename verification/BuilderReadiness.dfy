/** Policy injection, the readiness score, and what predicate repairs do to both errors and score. */
module BuilderReadiness {
  import opened Wrappers
  import opened BuilderNodes
  import opened BuilderValidation
  import opened BuilderRepair
  import opened BuilderRepairRuns

  const RISKY: Node -> bool := (n: Node) => n.IsRisky()
  const COVERED: Node -> bool := (n: Node) => n.policyCheckpoint
  const UNAPPROVED: Node -> bool := (n: Node) => n.IsDeploy() && !n.humanApproval

  /** The ids of the nodes that carry a checkpoint of their own. */
  function CoveredIds(nodes: seq<Node>): set<string> {
    set n | n in nodes && n.policyCheckpoint :: n.id
  }

  function ApprovedIds(nodes: seq<Node>): set<string> {
    set n | n in nodes && n.humanApproval :: n.id
  }

  datatype Policies = Policies(injectedNodeIds: seq<string>, approvalMissing: seq<string>)

  function Injected(nodes: seq<Node>, covered: set<string>, approved: set<string>): Policies {
    if nodes == [] then Policies([], [])
    else
      var before, n := Injected(nodes[..|nodes| - 1], covered, approved), nodes[|nodes| - 1];
      Policies(
        before.injectedNodeIds + if n.IsRisky() && n.id !in covered then [n.id] else [],
        before.approvalMissing + if n.IsRisky() && n.IsDeploy() && n.id !in approved then [n.id] else [])
  }

  method InjectPolicies(nodes: seq<Node>) returns (p: Policies)
    ensures p == Injected(nodes, CoveredIds(nodes), ApprovedIds(nodes))
  {
    var covered, approved := CoveredIds(nodes), ApprovedIds(nodes);
    var injectedNodeIds: seq<string>, approvalMissing: seq<string> := [], [];
    for i := 0 to |nodes|
      invariant Policies(injectedNodeIds, approvalMissing) == Injected(nodes[..i], covered, approved)
    {
      assert nodes[..i + 1][..i] == nodes[..i];
      var n := nodes[i];
      if n.IsRisky() {
        if n.id !in covered {
          injectedNodeIds := injectedNodeIds + [n.id];
        }
        if n.IsDeploy() && n.id !in approved {
          approvalMissing := approvalMissing + [n.id];
        }
      }
    }
    assert nodes[..|nodes|] == nodes;
    p := Policies(injectedNodeIds, approvalMissing);
  }

  /** The connector gaps by status. */
  datatype Gaps = Gaps(total: nat, missing: nat, placeholder: nat)

  datatype Score = Score(overall: int, execution: int, connectors: int, policy: int, usability: int, monitoring: int)

  function Clamp(x: int): (r: int)
    ensures 0 <= r <= 100
  {
    if x < 0 then 0 else if x > 100 then 100 else x
  }

  /** Rounding to the nearest integer, halves upwards. */
  function Round(x: real): int {
    (x + 0.5).Floor
  }

  function Penalty(condition: bool, points: int): int {
    if condition then points else 0
  }

  function ExecutionScore(nodes: seq<Node>, blocking: nat): int {
    Clamp(100 - blocking * 40
          - Penalty(nodes != [] && !nodes[0].IsTrigger(), 15)
          - Penalty(nodes != [] && !nodes[|nodes| - 1].IsExit(), 10)
          - Penalty(MostLackFailurePath(nodes), 15)
          - Penalty(|nodes| < 2, 20))
  }

  function ConnectorScore(gaps: Gaps): int {
    if gaps.total == 0 then 70 else Clamp(100 - gaps.missing * 30 - gaps.placeholder * 10)
  }

  function Coverage(nodes: seq<Node>, inserted: nat): nat {
    Count(nodes, COVERED) + inserted
  }

  function CoverageLoss(risky: nat, covered: nat): int {
    if risky > 0 && covered < risky then Round((1.0 - covered as real / risky as real) * 40.0) else 0
  }

  function PolicyScore(nodes: seq<Node>, inserted: nat): int {
    Clamp(100 - CoverageLoss(Count(nodes, RISKY), Coverage(nodes, inserted)) - Count(nodes, UNAPPROVED) * 15)
  }

  predicate Notifies(nodes: seq<Node>) {
    exists n :: n in nodes && (n.kind.Notification? || n.kind.SlackMessage? || n.kind.EmailSend?)
  }

  predicate HasApproval(nodes: seq<Node>) {
    exists n :: n in nodes && (n.humanApproval || n.kind.WaitApproval?)
  }

  function UsabilityScore(nodes: seq<Node>): int {
    Clamp(100 - Penalty(!Notifies(nodes) && |nodes| >= 3, 20)
          - Penalty(Count(nodes, RISKY) > 0 && !HasApproval(nodes), 15))
  }

  predicate HasAuditLog(nodes: seq<Node>) {
    exists n :: n in nodes && (n.connectorKey.MetisAudit? || n.kind.LogMonitor?)
  }

  predicate HasEvidence(nodes: seq<Node>) {
    exists n :: n in nodes && n.connectorKey.MetisEvidence?
  }

  predicate HasMonitor(nodes: seq<Node>) {
    exists n :: n in nodes && n.kind.LogMonitor?
  }

  function MonitoringScore(nodes: seq<Node>): int {
    Clamp(100 - Penalty(!HasAuditLog(nodes), 30) - Penalty(!HasEvidence(nodes) && |nodes| >= 5, 15)
          - Penalty(!HasMonitor(nodes) && |nodes| >= 4, 15))
  }

  function Overall(execution: int, connectors: int, policy: int, usability: int, monitoring: int): int {
    Round(execution as real * 0.30 + connectors as real * 0.20 + policy as real * 0.20
          + usability as real * 0.15 + monitoring as real * 0.15)
  }

  /** The score of a list whose validation and policies have just been computed. */
  function Readiness(nodes: seq<Node>, gaps: Gaps, inserted: nat, blocking: nat): Score {
    var e, c, p := ExecutionScore(nodes, blocking), ConnectorScore(gaps), PolicyScore(nodes, inserted);
    var u, m := UsabilityScore(nodes), MonitoringScore(nodes);
    Score(Overall(e, c, p, u, m), e, c, p, u, m)
  }

  method PolicyAxis(nodes: seq<Node>, inserted: nat) returns (polScore: int)
    ensures polScore == PolicyScore(nodes, inserted)
  {
    polScore := 100;
    var risky, covered := Count(nodes, RISKY), Coverage(nodes, inserted);
    if risky > 0 && covered < risky {
      polScore := polScore - Round((1.0 - covered as real / risky as real) * 40.0);
    }
    var unapproved := Count(nodes, UNAPPROVED);
    if unapproved > 0 { polScore := polScore - unapproved * 15; }
    polScore := Clamp(polScore);
  }

  method OperatorAxes(nodes: seq<Node>) returns (usabScore: int, monScore: int)
    ensures usabScore == UsabilityScore(nodes) && monScore == MonitoringScore(nodes)
  {
    usabScore := 100;
    if !Notifies(nodes) && |nodes| >= 3 { usabScore := usabScore - 20; }
    if Count(nodes, RISKY) > 0 && !HasApproval(nodes) { usabScore := usabScore - 15; }
    usabScore := Clamp(usabScore);
    monScore := 100;
    if !HasAuditLog(nodes) { monScore := monScore - 30; }
    if !HasEvidence(nodes) && |nodes| >= 5 { monScore := monScore - 15; }
    if !HasMonitor(nodes) && |nodes| >= 4 { monScore := monScore - 15; }
    monScore := Clamp(monScore);
  }

  method ComputeReadiness(nodes: seq<Node>, gaps: Gaps, inserted: nat, blocking: nat) returns (s: Score)
    ensures s == Readiness(nodes, gaps, inserted, blocking)
  {
    var execScore := 100;
    execScore := execScore - blocking * 40;
    if nodes != [] && !nodes[0].IsTrigger() { execScore := execScore - 15; }
    if nodes != [] && !nodes[|nodes| - 1].IsExit() { execScore := execScore - 10; }
    if MostLackFailurePath(nodes) { execScore := execScore - 15; }
    if |nodes| < 2 { execScore := execScore - 20; }
    execScore := Clamp(execScore);

    var connScore := 100;
    if gaps.total > 0 {
      if gaps.missing > 0 { connScore := connScore - gaps.missing * 30; }
      if gaps.placeholder > 0 { connScore := connScore - gaps.placeholder * 10; }
    } else {
      connScore := 70;
    }
    connScore := Clamp(connScore);

    var polScore := PolicyAxis(nodes, inserted);
    var usabScore, monScore := OperatorAxes(nodes);
    s := Score(Overall(execScore, connScore, polScore, usabScore, monScore),
               execScore, connScore, polScore, usabScore, monScore);
  }

  /** The overall score is always a percentage. */
  lemma OverallInRange(nodes: seq<Node>, gaps: Gaps, inserted: nat, blocking: nat)
    ensures 0 <= Readiness(nodes, gaps, inserted, blocking).overall <= 100
  {
  }

  /** A risky node whose id some node covers, itself or another of the same id. */
  function CoveredById(covered: set<string>): Node -> bool {
    (n: Node) => n.IsRisky() && n.id in covered
  }

  lemma {:induction false} InjectionCounts(nodes: seq<Node>, covered: set<string>, approved: set<string>)
    ensures |Injected(nodes, covered, approved).injectedNodeIds| + Count(nodes, CoveredById(covered)) ==
            Count(nodes, RISKY)
  {
    if nodes != [] {
      InjectionCounts(nodes[..|nodes| - 1], covered, approved);
    }
  }

  /** With checkpoints injected for the list itself, risky nodes stay uncovered exactly when more of them share
      a covered id than there are covered nodes. */
  lemma CoverageShortIff(nodes: seq<Node>)
    ensures var inserted := |Injected(nodes, CoveredIds(nodes), ApprovedIds(nodes)).injectedNodeIds|;
            Coverage(nodes, inserted) < Count(nodes, RISKY) <==>
            Count(nodes, COVERED) < Count(nodes, CoveredById(CoveredIds(nodes)))
  {
    InjectionCounts(nodes, CoveredIds(nodes), ApprovedIds(nodes));
  }

  lemma {:induction false} CountImplies(nodes: seq<Node>, p: Node -> bool, q: Node -> bool)
    requires forall n :: n in nodes && p(n) ==> q(n)
    ensures Count(nodes, p) <= Count(nodes, q)
  {
    if nodes != [] {
      CountImplies(nodes[..|nodes| - 1], p, q);
    }
  }

  /** With unique ids that cannot be, and the coverage loss never applies. */
  lemma NoCoverageLoss(nodes: seq<Node>)
    requires UniqueIds(nodes)
    ensures var inserted := |Injected(nodes, CoveredIds(nodes), ApprovedIds(nodes)).injectedNodeIds|;
            CoverageLoss(Count(nodes, RISKY), Coverage(nodes, inserted)) == 0
  {
    var covered := CoveredIds(nodes);
    forall n | n in nodes && CoveredById(covered)(n)
      ensures COVERED(n)
    {
      var m :| m in nodes && m.policyCheckpoint && m.id == n.id;
      OnlyOne(nodes, m);
      OnlyOne(nodes, n);
    }
    CountImplies(nodes, CoveredById(covered), COVERED);
    CoverageShortIff(nodes);
  }

  lemma InsertedMembers(nodes: seq<Node>, i: nat, added: Node)
    requires i <= |nodes|
    ensures forall m :: m in nodes[..i] + [added] + nodes[i..] <==> m in nodes || m == added
  {
    assert nodes[..i] + nodes[i..] == nodes;
    assert forall m :: m in nodes <==> m in nodes[..i] || m in nodes[i..];
  }

  lemma RenumberedFrom(nodes: seq<Node>, m: Node)
    requires m in Renumbered(nodes)
    ensures exists n :: n in nodes && m == n.(order := m.order)
  {
    var i :| 0 <= i < |nodes| && Renumbered(nodes)[i] == m;
    assert nodes[i] in nodes;
  }

  lemma NotApproved(nodes: seq<Node>, before: seq<Node>, newId: string, id: string)
    requires id !in ApprovedIds(nodes) && newId != id
    requires forall m :: m in before ==> m in nodes || m.id == newId
    ensures id !in ApprovedIds(Renumbered(before))
  {
    forall m | m in Renumbered(before) && m.humanApproval
      ensures m.id != id
    {
      RenumberedFrom(before, m);
    }
  }

  lemma RenumberedHas(nodes: seq<Node>, n: Node)
    requires n in nodes
    ensures exists m :: m in Renumbered(nodes) && m == n.(order := m.order)
  {
    var i :| 0 <= i < |nodes| && nodes[i] == n;
    assert Renumbered(nodes)[i] in Renumbered(nodes);
  }

  lemma {:induction false} MissingMeans(nodes: seq<Node>, covered: set<string>, approved: set<string>, id: string)
    ensures id in Injected(nodes, covered, approved).approvalMissing <==>
            id !in approved && exists n :: n in nodes && n.id == id && n.IsRisky() && n.IsDeploy()
  {
    if nodes != [] {
      MissingMeans(nodes[..|nodes| - 1], covered, approved, id);
      assert forall n :: n in nodes <==> n in nodes[..|nodes| - 1] || n == nodes[|nodes| - 1];
    }
  }

  lemma MissingAfterInsertion(nodes: seq<Node>, before: seq<Node>, n: Node, newId: string)
    requires n in nodes && n.IsRisky() && n.IsDeploy() && n.id != newId && n.id !in ApprovedIds(nodes)
    requires forall m :: m in before <==> m in nodes || m == ApprovalNode(newId, IndexOf(nodes, n.id) + 1)
    ensures var r := Renumbered(before); n.id in Injected(r, CoveredIds(r), ApprovedIds(r)).approvalMissing
  {
    var r := Renumbered(before);
    RenumberedHas(before, n);
    NotApproved(nodes, before, newId, n.id);
    MissingMeans(r, CoveredIds(r), ApprovedIds(r), n.id);
  }

  /** The approval repair puts an approval node in front of its target, whose own approval stays missing. */
  lemma ApprovalStaysMissing(nodes: seq<Node>, id: string, newId: string)
    requires !HasId(nodes, newId) && id in Injected(nodes, CoveredIds(nodes), ApprovedIds(nodes)).approvalMissing
    ensures var r := Apply(nodes, AddApproval(id), newId);
            id in Injected(r, CoveredIds(r), ApprovedIds(r)).approvalMissing
  {
    MissingMeans(nodes, CoveredIds(nodes), ApprovedIds(nodes), id);
    var n :| n in nodes && n.id == id && n.IsRisky() && n.IsDeploy();
    if id != "" {
      var i := IndexOf(nodes, id);
      InsertedMembers(nodes, i, ApprovalNode(newId, i + 1));
      MissingAfterInsertion(nodes, nodes[..i] + [ApprovalNode(newId, i + 1)] + nodes[i..], n, newId);
    }
  }

  // ---- Predicate repairs ----

  /** The list after predicate repairs of the given nodes, one after the other. */
  function PredicatesSet(nodes: seq<Node>, ids: seq<string>): seq<Node> {
    if ids == [] then nodes
    else Apply(PredicatesSet(nodes, ids[..|ids| - 1]), SetBranchPredicate(ids[|ids| - 1]), "")
  }

  /** Some repair of `ids` writes to the node: its id is among them, not empty, and no earlier node has it. */
  ghost predicate Reached(nodes: seq<Node>, i: nat, ids: set<string>)
    requires i < |nodes|
  {
    nodes[i].id in ids && nodes[i].id != "" && !Shadowed(nodes, i)
  }

  ghost predicate SetAt(nodes: seq<Node>, i: nat, ids: set<string>, n: Node)
    requires i < |nodes|
  {
    n == if Reached(nodes, i, ids) then WithPredicate(nodes[i]) else nodes[i]
  }

  /** The same said at once: every node that is reached gets its predicate. */
  ghost predicate SetExactly(nodes: seq<Node>, ids: set<string>, r: seq<Node>) {
    |r| == |nodes| && forall i :: 0 <= i < |nodes| ==> SetAt(nodes, i, ids, r[i])
  }

  lemma SetTwice(n: Node)
    ensures WithPredicate(WithPredicate(n)) == WithPredicate(n)
  {
    var s, t := WithPredicate(n).settings, WithPredicate(WithPredicate(n)).settings;
    assert s == t;
  }

  lemma SetOneAt(nodes: seq<Node>, ids: set<string>, r: seq<Node>, id: string, i: nat)
    requires SetExactly(nodes, ids, r) && i < |nodes| && id != ""
    ensures SetAt(nodes, i, ids + {id}, UpdateFirst(r, id, WithPredicate)[i])
  {
    assert forall j :: 0 <= j < |nodes| && SetAt(nodes, j, ids, r[j]) ==> r[j].id == nodes[j].id;
    SetTwice(nodes[i]);
    assert Shadowed(r, i) <==> Shadowed(nodes, i);
    assert r[i].id == id ==> (IndexOf(r, id) == i <==> !Shadowed(r, i));
  }

  lemma SetOne(nodes: seq<Node>, ids: set<string>, r: seq<Node>, id: string)
    requires SetExactly(nodes, ids, r)
    ensures SetExactly(nodes, ids + {id}, Targeted(r, id, WithPredicate))
  {
    forall i | 0 <= i < |nodes|
      ensures SetAt(nodes, i, ids + {id}, Targeted(r, id, WithPredicate)[i])
    {
      assert SetAt(nodes, i, ids, r[i]);
      if id != "" {
        SetOneAt(nodes, ids, r, id, i);
      }
    }
  }

  function Members(ids: seq<string>): set<string> {
    set id | id in ids
  }

  lemma {:induction false} PredicatesSetExactly(nodes: seq<Node>, ids: seq<string>)
    ensures SetExactly(nodes, Members(ids), PredicatesSet(nodes, ids))
  {
    if ids != [] {
      var before, last := ids[..|ids| - 1], ids[|ids| - 1];
      PredicatesSetExactly(nodes, before);
      SetOne(nodes, Members(before), PredicatesSet(nodes, before), last);
      assert Members(ids) == Members(before) + {last};
    }
  }

  lemma SetAlike(nodes: seq<Node>, ids: set<string>, r: seq<Node>, s: seq<Node>)
    requires SetExactly(nodes, ids, r) && SetExactly(nodes, ids, s)
    ensures r == s
  {
    forall i | 0 <= i < |nodes|
      ensures r[i] == s[i]
    {
      assert SetAt(nodes, i, ids, r[i]) && SetAt(nodes, i, ids, s[i]);
    }
  }

  /** The order of predicate repairs does not matter. */
  lemma PredicateRepairsCommute(nodes: seq<Node>, a: seq<string>, b: seq<string>)
    requires forall id :: id in a <==> id in b
    ensures PredicatesSet(nodes, a) == PredicatesSet(nodes, b)
  {
    PredicatesSetExactly(nodes, a);
    PredicatesSetExactly(nodes, b);
    assert Members(a) == Members(b);
    SetAlike(nodes, Members(a), PredicatesSet(nodes, a), PredicatesSet(nodes, b));
  }

  lemma LacksAfter(nodes: seq<Node>, ids: set<string>, r: seq<Node>, i: nat)
    requires SetExactly(nodes, ids, r) && i < |nodes|
    ensures r[i].LacksPredicate() <==> nodes[i].LacksPredicate() && !Reached(nodes, i, ids)
  {
    assert SetAt(nodes, i, ids, r[i]);
    RepairedNode(nodes[i]);
  }

  lemma {:induction false} NoneLacks(nodes: seq<Node>)
    ensures PredicateErrors(nodes) == [] <==> forall i :: 0 <= i < |nodes| ==> !nodes[i].LacksPredicate()
  {
    if nodes != [] {
      NoneLacks(nodes[..|nodes| - 1]);
    }
  }

  /** For every list and all targets: the repairs make the list valid exactly if they reach every branch in error. */
  lemma PredicateRepairsReachValidIff(nodes: seq<Node>, ids: seq<string>)
    requires nodes != []
    ensures Validate(PredicatesSet(nodes, ids)).isValid <==>
            forall i :: 0 <= i < |nodes| && nodes[i].LacksPredicate() ==> Reached(nodes, i, Members(ids))
  {
    var r := PredicatesSet(nodes, ids);
    PredicatesSetExactly(nodes, ids);
    forall i | 0 <= i < |nodes|
      ensures r[i].LacksPredicate() <==> nodes[i].LacksPredicate() && !Reached(nodes, i, Members(ids))
    {
      LacksAfter(nodes, Members(ids), r, i);
    }
    NoneLacks(r);
  }

  lemma {:induction false} ErrorsAreCounted(nodes: seq<Node>)
    ensures |PredicateErrors(nodes)| == Count(nodes, NO_PREDICATE)
  {
    if nodes != [] {
      ErrorsAreCounted(nodes[..|nodes| - 1]);
    }
  }

  lemma DueNoMore(nodes: seq<Node>, i: nat, m: Node)
    requires UniqueIds(nodes) && i < |nodes| && m.id == nodes[i].id && !m.LacksPredicate()
    ensures !Due(nodes[i := m], SetBranchPredicate(m.id))
  {
    forall n | n in nodes[i := m] && n.id == m.id
      ensures !n.LacksPredicate()
    {
      var j :| 0 <= j < |nodes| && nodes[i := m][j] == n;
      assert nodes[j].id == nodes[i].id;
    }
  }

  lemma DueElsewhere(nodes: seq<Node>, i: nat, m: Node, other: string)
    requires i < |nodes| && m.id == nodes[i].id && other != m.id
    ensures Due(nodes[i := m], SetBranchPredicate(other)) <==> Due(nodes, SetBranchPredicate(other))
  {
    if n :| n in nodes && n.id == other && n.LacksPredicate() {
      var j :| 0 <= j < |nodes| && nodes[j] == n;
      assert nodes[i := m][j] == n;
    }
    if n :| n in nodes[i := m] && n.id == other && n.LacksPredicate() {
      var j :| 0 <= j < |nodes| && nodes[i := m][j] == n;
      assert nodes[j] == n;
    }
  }

  ghost predicate DueAlike(nodes: seq<Node>, r: seq<Node>, id: string) {
    Due(r, SetBranchPredicate(id)) <==> Due(nodes, SetBranchPredicate(id))
  }

  /** A predicate repair of a blocking error removes one error exactly if it hits, and then only one of its own id. */
  lemma PredicateRepairRemovesIff(nodes: seq<Node>, id: string)
    requires Due(nodes, SetBranchPredicate(id))
    ensures var r := Apply(nodes, SetBranchPredicate(id), "");
            && |PredicateErrors(nodes)| == |PredicateErrors(r)| + (if Hits(nodes, SetBranchPredicate(id)) then 1 else 0)
            && forall other :: other != id ==> DueAlike(nodes, r, other)
  {
    var i, r := IndexOf(nodes, id), Apply(nodes, SetBranchPredicate(id), "");
    ErrorsAreCounted(nodes);
    ErrorsAreCounted(r);
    if id != "" {
      RepairedNode(nodes[i]);
      CountUpdate(nodes, i, WithPredicate(nodes[i]), NO_PREDICATE);
      forall other | other != id
        ensures DueAlike(nodes, r, other)
      {
        DueElsewhere(nodes, i, WithPredicate(nodes[i]), other);
      }
    }
  }

  /** With unique ids it hits exactly if its target id is not empty, and its error is then gone. */
  lemma PredicateRepairRemovesOne(nodes: seq<Node>, id: string)
    requires UniqueIds(nodes) && Due(nodes, SetBranchPredicate(id))
    ensures var r := Apply(nodes, SetBranchPredicate(id), "");
            && (Hits(nodes, SetBranchPredicate(id)) <==> id != "")
            && UniqueIds(r)
            && (Due(r, SetBranchPredicate(id)) <==> id == "")
  {
    if id != "" {
      var n :| n in nodes && n.id == id && n.LacksPredicate();
      var i := IndexOf(nodes, id);
      OnlyOne(nodes, n);
      RepairedNode(n);
      DueNoMore(nodes, i, WithPredicate(n));
      PredicateAt(nodes, i);
    }
  }

  ghost predicate DistinctIds(ids: seq<string>) {
    forall i, j :: 0 <= i < j < |ids| ==> ids[i] != ids[j]
  }

  /** Each of the targets was repaired once, except the empty one, which stays due. */
  ghost predicate Rid(nodes: seq<Node>, r: seq<Node>, ids: seq<string>) {
    && UniqueIds(r)
    && |PredicateErrors(r)| + |ids| == |PredicateErrors(nodes)| + (if "" in ids then 1 else 0)
    && ("" in ids ==> Due(r, SetBranchPredicate("")))
    && forall other :: other !in ids ==> DueAlike(nodes, r, other)
  }

  lemma AlikeTwice(nodes: seq<Node>, s: seq<Node>, r: seq<Node>, id: string)
    requires DueAlike(nodes, s, id) && DueAlike(s, r, id)
    ensures DueAlike(nodes, r, id)
  {
  }

  lemma RidStep(nodes: seq<Node>, s: seq<Node>, r: seq<Node>, ids: seq<string>, last: string)
    requires Rid(nodes, s, ids) && last !in ids && UniqueIds(r)
    requires |PredicateErrors(s)| == |PredicateErrors(r)| + (if last != "" then 1 else 0)
    requires last == "" ==> Due(r, SetBranchPredicate(last))
    requires forall other :: other != last ==> DueAlike(s, r, other)
    ensures Rid(nodes, r, ids + [last])
  {
    forall other | other !in ids + [last]
      ensures DueAlike(nodes, r, other)
    {
      assert other !in ids && other != last;
      AlikeTwice(nodes, s, r, other);
    }
    assert "" in ids + [last] <==> "" in ids || last == "";
    assert "" in ids ==> DueAlike(s, r, "");
  }

  lemma RidOfOneMore(nodes: seq<Node>, s: seq<Node>, ids: seq<string>, last: string)
    requires Rid(nodes, s, ids) && last !in ids && Due(nodes, SetBranchPredicate(last))
    ensures Rid(nodes, Apply(s, SetBranchPredicate(last), ""), ids + [last])
  {
    assert DueAlike(nodes, s, last);
    PredicateRepairRemovesIff(s, last);
    PredicateRepairRemovesOne(s, last);
    RidStep(nodes, s, Apply(s, SetBranchPredicate(last), ""), ids, last);
  }

  lemma {:induction false} PredicateRepairsRemove(nodes: seq<Node>, ids: seq<string>)
    requires UniqueIds(nodes) && DistinctIds(ids)
    requires forall id :: id in ids ==> Due(nodes, SetBranchPredicate(id))
    ensures Rid(nodes, PredicatesSet(nodes, ids), ids)
  {
    if ids != [] {
      var before, last := ids[..|ids| - 1], ids[|ids| - 1];
      PredicateRepairsRemove(nodes, before);
      RidOfOneMore(nodes, PredicatesSet(nodes, before), before, last);
      assert before + [last] == ids;
    }
  }

  lemma DueIsAnError(nodes: seq<Node>, id: string)
    requires Due(nodes, SetBranchPredicate(id))
    ensures PredicateErrors(nodes) != []
  {
    ErrorsAreCounted(nodes);
    CountZero(nodes, NO_PREDICATE);
  }

  lemma RidIsValidIff(nodes: seq<Node>, r: seq<Node>, ids: seq<string>)
    requires r != [] && Rid(nodes, r, ids)
    ensures Validate(r).isValid <==> |ids| == |PredicateErrors(nodes)| && "" !in ids
  {
    if "" in ids {
      DueIsAnError(r, "");
    }
  }

  /**
   With unique ids, predicate repairs for distinct blocking errors, in any order, make the list valid exactly
   when there are as many of them as blocking errors and none of them has an empty target.
   */
  lemma PredicateRepairsCountIff(nodes: seq<Node>, ids: seq<string>)
    requires nodes != [] && UniqueIds(nodes) && DistinctIds(ids)
    requires forall id :: id in ids ==> Due(nodes, SetBranchPredicate(id))
    ensures Validate(PredicatesSet(nodes, ids)).isValid <==> |ids| == |PredicateErrors(nodes)| && "" !in ids
  {
    PredicateRepairsRemove(nodes, ids);
    PredicatesSetExactly(nodes, ids);
    RidIsValidIff(nodes, PredicatesSet(nodes, ids), ids);
  }

  /** The score of a list with its own policies and its own validation. */
  function FreshScore(nodes: seq<Node>, gaps: Gaps): Score {
    Readiness(nodes, gaps, |Injected(nodes, CoveredIds(nodes), ApprovedIds(nodes)).injectedNodeIds|,
              |Validate(nodes).blockingErrors|)
  }

  ghost predicate OnlyExecutionRises(before: Score, after: Score) {
    && after.overall >= before.overall && after.execution >= before.execution
    && after.connectors == before.connectors && after.policy == before.policy
    && after.usability == before.usability && after.monitoring == before.monitoring
  }

  lemma FewerErrors(nodes: seq<Node>, r: seq<Node>, more: nat, fewer: nat)
    requires |r| == |nodes| && forall i :: 0 <= i < |nodes| ==> r[i] == nodes[i].(settings := r[i].settings)
    requires MostLackFailurePath(r) == MostLackFailurePath(nodes) && fewer <= more
    ensures ExecutionScore(nodes, more) <= ExecutionScore(r, fewer)
  {
  }

  lemma OverallGrows(low: int, high: int, c: int, p: int, u: int, m: int)
    requires low <= high
    ensures Overall(low, c, p, u, m) <= Overall(high, c, p, u, m)
  {
  }

  lemma SamePresence(nodes: seq<Node>, r: seq<Node>)
    requires |r| == |nodes| && forall i :: 0 <= i < |nodes| ==> r[i] == nodes[i].(settings := r[i].settings)
    ensures Notifies(nodes) ==> Notifies(r)
    ensures HasApproval(nodes) ==> HasApproval(r)
    ensures HasAuditLog(nodes) ==> HasAuditLog(r)
    ensures HasEvidence(nodes) ==> HasEvidence(r)
    ensures HasMonitor(nodes) ==> HasMonitor(r)
  {
    forall n | n in nodes
      ensures exists m :: m in r && m == n.(settings := m.settings)
    {
      var i :| 0 <= i < |nodes| && nodes[i] == n;
      assert r[i] in r;
    }
  }

  /** Lists that differ only in settings score alike on every axis, for the same number of blocking errors. */
  lemma SameScores(nodes: seq<Node>, r: seq<Node>)
    requires |r| == |nodes| && forall i :: 0 <= i < |nodes| ==> r[i] == nodes[i].(settings := r[i].settings)
    ensures Count(r, UNAPPROVED) == Count(nodes, UNAPPROVED) && Count(r, RISKY) == Count(nodes, RISKY)
    ensures MostLackFailurePath(r) == MostLackFailurePath(nodes)
    ensures UsabilityScore(r) == UsabilityScore(nodes) && MonitoringScore(r) == MonitoringScore(nodes)
  {
    CountSame(r, nodes, UNAPPROVED);
    CountSame(r, nodes, RISKY);
    CountSame(r, nodes, NO_FAILURE_PATH);
    SamePresence(nodes, r);
    SamePresence(r, nodes);
  }

  lemma SameCovered(nodes: seq<Node>, r: seq<Node>)
    requires |r| == |nodes| && forall i :: 0 <= i < |nodes| ==> r[i] == nodes[i].(settings := r[i].settings)
    ensures CoveredIds(r) == CoveredIds(nodes)
  {
    forall id
      ensures id in CoveredIds(r) <==> id in CoveredIds(nodes)
    {
      if n :| n in nodes && n.policyCheckpoint && n.id == id {
        var i :| 0 <= i < |nodes| && nodes[i] == n;
        assert r[i] in r;
      }
      if n :| n in r && n.policyCheckpoint && n.id == id {
        var i :| 0 <= i < |r| && r[i] == n;
        assert nodes[i] in nodes;
      }
    }
  }

  /** They need as many checkpoints, and carry as many. */
  lemma SameCoverage(nodes: seq<Node>, r: seq<Node>)
    requires |r| == |nodes| && forall i :: 0 <= i < |nodes| ==> r[i] == nodes[i].(settings := r[i].settings)
    ensures Coverage(r, |Injected(r, CoveredIds(r), ApprovedIds(r)).injectedNodeIds|) ==
            Coverage(nodes, |Injected(nodes, CoveredIds(nodes), ApprovedIds(nodes)).injectedNodeIds|)
  {
    SameCovered(nodes, r);
    InjectionCounts(nodes, CoveredIds(nodes), ApprovedIds(nodes));
    InjectionCounts(r, CoveredIds(r), ApprovedIds(r));
    CountSame(r, nodes, RISKY);
    CountSame(r, nodes, COVERED);
    CountSame(r, nodes, CoveredById(CoveredIds(nodes)));
  }

  lemma ScoresRise(nodes: seq<Node>, r: seq<Node>, gaps: Gaps)
    requires |r| == |nodes| && forall i :: 0 <= i < |nodes| ==> r[i] == nodes[i].(settings := r[i].settings)
    requires |Validate(r).blockingErrors| <= |Validate(nodes).blockingErrors|
    ensures OnlyExecutionRises(FreshScore(nodes, gaps), FreshScore(r, gaps))
  {
    SameCoverage(nodes, r);
    SameScores(nodes, r);
    FewerErrors(nodes, r, |Validate(nodes).blockingErrors|, |Validate(r).blockingErrors|);
    OverallGrows(ExecutionScore(nodes, |Validate(nodes).blockingErrors|),
                 ExecutionScore(r, |Validate(r).blockingErrors|), FreshScore(r, gaps).connectors,
                 FreshScore(r, gaps).policy, FreshScore(r, gaps).usability, FreshScore(r, gaps).monitoring);
  }

  /** A predicate repair changes no score but execution readiness, which it never lowers. */
  lemma PredicateRepairNeverLowers(nodes: seq<Node>, id: string, gaps: Gaps)
    requires Due(nodes, SetBranchPredicate(id))
    ensures OnlyExecutionRises(FreshScore(nodes, gaps), FreshScore(Apply(nodes, SetBranchPredicate(id), ""), gaps))
  {
    PredicateRepairRemovesIff(nodes, id);
    ScoresRise(nodes, Apply(nodes, SetBranchPredicate(id), ""), gaps);
  }
}
