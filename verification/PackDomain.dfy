/** The status machine of a pack version, and who may move it. */
module PackDomain {
  import opened Wrappers

  datatype Status = DRAFT | IMPORTED | VALIDATED | CERTIFIED | PUBLISHED | DEPRECATED | BLOCKED

  datatype Role = PlatformAdmin | TenantAdmin | Operator | OtherRole

  function Targets(from: Status): seq<Status> {
    match from
    case DRAFT => [IMPORTED, BLOCKED]
    case IMPORTED => [VALIDATED, BLOCKED]
    case VALIDATED => [CERTIFIED, BLOCKED]
    case CERTIFIED => [PUBLISHED, BLOCKED]
    case PUBLISHED => [DEPRECATED, BLOCKED]
    case DEPRECATED => [BLOCKED]
    case BLOCKED => []
  }

  function Roles(from: Status, to: Status): seq<Role> {
    if to == BLOCKED then [PlatformAdmin]
    else if from == DRAFT || from == IMPORTED then [PlatformAdmin, TenantAdmin, Operator]
    else [PlatformAdmin, TenantAdmin]
  }

  predicate CanTransition(from: Status, to: Status, role: Role) {
    to in Targets(from) && role in Roles(from, to)
  }

  const PIPELINE: seq<Status> := [DRAFT, IMPORTED, VALIDATED, CERTIFIED, PUBLISHED]

  /** The place of a status in the pipeline, or -1. */
  function IndexOf(s: Status): (i: int)
    ensures i == -1 || (0 <= i < |PIPELINE| && PIPELINE[i] == s)
    ensures i == -1 <==> s !in PIPELINE
  {
    match s
    case DRAFT => 0
    case IMPORTED => 1
    case VALIDATED => 2
    case CERTIFIED => 3
    case PUBLISHED => 4
    case _ =>
      assert PIPELINE[0] != s && PIPELINE[1] != s && PIPELINE[2] != s && PIPELINE[3] != s && PIPELINE[4] != s;
      -1
  }

  function NextPipelineStatus(current: Status): Option<Status> {
    var i := IndexOf(current);
    if i == -1 || i >= |PIPELINE| - 1 then None else Some(PIPELINE[i + 1])
  }

  ghost predicate LegalPath(path: seq<Status>, role: Role) {
    forall i :: 0 <= i < |path| - 1 ==> CanTransition(path[i], path[i + 1], role)
  }

  function Rank(s: Status): nat {
    match s
    case DRAFT => 0
    case IMPORTED => 1
    case VALIDATED => 2
    case CERTIFIED => 3
    case PUBLISHED => 4
    case DEPRECATED => 5
    case BLOCKED => 6
  }

  /** A version never returns to a status: along any legal path the rank only grows. */
  lemma {:induction false} LegalPathsClimb(path: seq<Status>, role: Role, i: nat, j: nat)
    requires LegalPath(path, role) && i < j < |path|
    ensures Rank(path[i]) + (j - i) <= Rank(path[j])
    decreases j
  {
    assert CanTransition(path[j - 1], path[j], role);
    if i < j - 1 {
      LegalPathsClimb(path, role, i, j - 1);
    }
  }

  /** The pipeline's next status is the one move from a status that does not block it and that an administrator may
      make. */
  lemma NextIsTheLegalMove(from: Status, to: Status)
    ensures NextPipelineStatus(from) == Some(to) <==>
            to != BLOCKED && to in PIPELINE && CanTransition(from, to, PlatformAdmin)
  {
    assert PIPELINE[0] == DRAFT && PIPELINE[1] == IMPORTED && PIPELINE[2] == VALIDATED;
    assert PIPELINE[3] == CERTIFIED && PIPELINE[4] == PUBLISHED;
  }
}
