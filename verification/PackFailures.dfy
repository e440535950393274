/** Who may move a version, and exactly where an import fails: at the first stage that something hinders. */
module PackFailures {
  import opened Wrappers
  import opened PackDomain
  import opened PackPipeline
  import opened PackPipelineRuns
  import opened Texts

  // ---- Moves ----

  /** The last status that someone with this role can take a version to. */
  function Ceiling(role: Role): Status {
    match role
    case PlatformAdmin => BLOCKED
    case TenantAdmin => DEPRECATED
    case Operator => VALIDATED
    case OtherRole => DRAFT
  }

  /** Only a platform administrator blocks; every other move goes one place up, as far as the role's last status. */
  lemma MovesMean(from: Status, to: Status, role: Role)
    ensures CanTransition(from, to, role) <==>
            if to == BLOCKED then from != BLOCKED && role == PlatformAdmin
            else Rank(to) == Rank(from) + 1 && Rank(to) <= Rank(Ceiling(role))
  {
  }

  ghost predicate Reaches(from: Status, to: Status, role: Role) {
    exists path :: LegalPath(path, role) && |path| > 0 && path[0] == from && path[|path| - 1] == to
  }

  lemma {:induction false} PathStaysBelow(path: seq<Status>, role: Role, i: nat)
    requires LegalPath(path, role) && 0 < i < |path|
    ensures Rank(path[0]) < Rank(path[i]) <= Rank(Ceiling(role))
  {
    MovesMean(path[i - 1], path[i], role);
    if i > 1 {
      PathStaysBelow(path, role, i - 1);
    } else {
      assert CanTransition(path[0], path[1], role);
    }
  }

  lemma ReachesFurther(from: Status, via: Status, to: Status, role: Role)
    requires Reaches(from, via, role) && CanTransition(via, to, role)
    ensures Reaches(from, to, role)
  {
    var path :| LegalPath(path, role) && |path| > 0 && path[0] == from && path[|path| - 1] == via;
    var longer := path + [to];
    forall i | 0 <= i < |longer| - 1
      ensures CanTransition(longer[i], longer[i + 1], role)
    {
      assert i < |path| - 1 ==> CanTransition(path[i], path[i + 1], role);
    }
    assert LegalPath(longer, role) && longer[0] == from && longer[|longer| - 1] == to;
  }

  lemma {:induction false} ClimbsTo(from: Status, to: Status, role: Role)
    requires Rank(from) <= Rank(to) <= Rank(Ceiling(role)) || from == to
    ensures Reaches(from, to, role)
    decreases Rank(to)
  {
    if from == to {
      assert LegalPath([from], role);
    } else {
      var via := [DRAFT, IMPORTED, VALIDATED, CERTIFIED, PUBLISHED, DEPRECATED][Rank(to) - 1];
      ClimbsTo(from, via, role);
      MovesMean(via, to, role);
      ReachesFurther(from, via, to, role);
    }
  }

  /** What someone with a role can make of a version: any later status up to the role's last one, and nothing else. */
  lemma ReachesIff(from: Status, to: Status, role: Role)
    ensures Reaches(from, to, role) <==> from == to || Rank(from) < Rank(to) <= Rank(Ceiling(role))
  {
    if Reaches(from, to, role) && from != to {
      var path :| LegalPath(path, role) && |path| > 0 && path[0] == from && path[|path| - 1] == to;
      PathStaysBelow(path, role, |path| - 1);
    }
    if from == to || Rank(from) < Rank(to) <= Rank(Ceiling(role)) {
      ClimbsTo(from, to, role);
    }
  }

  // ---- Failures ----

  /** A manifest asks for no more than a hundred calls at once, an hour, four gigabytes and a name of 128 units. */
  predicate Modest(m: Manifest) {
    && (m.maxConcurrency.Some? ==> m.maxConcurrency.value <= 100.0)
    && (m.timeoutMs.Some? ==> m.timeoutMs.value <= 3600000.0)
    && (m.memoryMb.Some? ==> m.memoryMb.value <= 4096.0)
    && Units(m.name) <= 128
  }

  /** The accesses that stage number `n` makes between its two reports. */
  function Uses(job: Job, w: World, db: Database, n: nat): set<Access>
    requires n < |STAGES|
  {
    match n
    case 2 =>
      {FindPack, CreateVersion}
      + if w.parsed.Some? && IdOf(w).0 in db.packs then {FindVersion} else {CreatePack}
    case 3 => {WriteStatus(IMPORTED)}
    case 4 => {WriteStatus(VALIDATED)}
    case 5 => {CreateCertification, WriteStatus(CERTIFIED)}
    case 6 => {WriteChecksum}
    case 7 => {WriteStatus(PUBLISHED)}
    case 8 => if job.autoInstall && job.tenant.Some? then {CreateInstallation} else {}
    case _ => {}
  }

  /** What a stage needs of the source: that it answers, parses, names a new version, and asks for little enough. */
  predicate Provided(w: World, db: Database, n: nat) {
    match n
    case 0 => w.fetches
    case 1 => w.parsed.Some?
    case 2 => w.parsed.Some? && IdOf(w) !in db.versions
    case 3 => w.parsed.Some? && Modest(w.parsed.value)
    case _ => true
  }

  predicate Hindered(job: Job, w: World, db: Database, n: nat)
    requires n < |STAGES|
  {
    !Provided(w, db, n) || !({ReportStart(STAGES[n]), ReportEnd(STAGES[n])} !! w.faults)
    || !(Uses(job, w, db, n) !! w.faults)
  }

  lemma NormalizeOkIff(job: Job, w: World, db: Database)
    requires Possible(w, db, 2)
    ensures Normalized(w, ImportAfter(job, w, db, 2)).ok <==> Provided(w, db, 2) && Uses(job, w, db, 2) !! w.faults
  {
  }

  lemma MoveOkIff(job: Job, w: World, db: Database, n: nat)
    requires (3 <= n <= 5 || n == 7) && Possible(w, db, n)
    ensures Executed(job, w, STAGES[n], ImportAfter(job, w, db, n)).ok
            <==> Provided(w, db, n) && Uses(job, w, db, n) !! w.faults
  {
    NextIsTheLegalMove(DRAFT, IMPORTED);
    NextIsTheLegalMove(IMPORTED, VALIDATED);
    NextIsTheLegalMove(VALIDATED, CERTIFIED);
    assert PIPELINE[0] == DRAFT && PIPELINE[1] == IMPORTED && PIPELINE[2] == VALIDATED && PIPELINE[3] == CERTIFIED;
  }

  lemma StageOkIff(job: Job, w: World, db: Database, n: nat)
    requires n < |STAGES| && Possible(w, db, n)
    ensures Executed(job, w, STAGES[n], ImportAfter(job, w, db, n)).ok
            <==> Provided(w, db, n) && Uses(job, w, db, n) !! w.faults
  {
    if n == 2 {
      NormalizeOkIff(job, w, db);
    } else if 3 <= n <= 5 || n == 7 {
      MoveOkIff(job, w, db, n);
    }
  }

  predicate Clear(job: Job, w: World, db: Database, n: nat)
    requires n <= |STAGES|
  {
    forall i :: 0 <= i < n ==> !Hindered(job, w, db, i)
  }

  /** The loop goes on past stage number `n` exactly if nothing hinders it, and fails there otherwise. */
  lemma TurnGoesOnIff(job: Job, w: World, db: Database, n: nat)
    requires n < StopIndex(job.stopAt) && After(job, w, db, n).mode == Running
    ensures var mode := After(job, w, db, n + 1).mode;
            mode == if Hindered(job, w, db, n) then Failed(STAGES[n]) else Running
  {
    RunKnown(job, w, db, n);
    StopsAtIndex(job.stopAt, n);
    StageOkIff(job, w, db, n);
  }

  lemma {:induction false} RunsWhileClear(job: Job, w: World, db: Database, n: nat)
    requires n <= StopIndex(job.stopAt) && Clear(job, w, db, n)
    ensures After(job, w, db, n).mode == Running
  {
    if n > 0 {
      RunsWhileClear(job, w, db, n - 1);
      TurnGoesOnIff(job, w, db, n - 1);
    }
  }

  /** The first stage that something hinders, or the end. */
  function FirstHindered(job: Job, w: World, db: Database, n: nat): (k: nat)
    requires n <= |STAGES| && Clear(job, w, db, n)
    ensures n <= k <= |STAGES| && Clear(job, w, db, k) && (k < |STAGES| ==> Hindered(job, w, db, k))
    decreases |STAGES| - n
  {
    if n == |STAGES| || Hindered(job, w, db, n) then n else FirstHindered(job, w, db, n + 1)
  }

  lemma FailsAtHindered(job: Job, w: World, db: Database, k: nat)
    requires k < StopIndex(job.stopAt) && Clear(job, w, db, k) && Hindered(job, w, db, k)
    ensures OutcomeOf(Final(job, w, db)) == FailedAt(STAGES[k])
  {
    RunsWhileClear(job, w, db, k);
    TurnGoesOnIff(job, w, db, k);
    Ended(job, w, db, k + 1, |STAGES|);
  }

  lemma ClearMeansNoFailure(job: Job, w: World, db: Database)
    requires Clear(job, w, db, StopIndex(job.stopAt))
    ensures !Final(job, w, db).mode.Failed?
    ensures Final(job, w, db).state == After(job, w, db, StopIndex(job.stopAt)).state
  {
    var k := StopIndex(job.stopAt);
    RunsWhileClear(job, w, db, k);
    if k < |STAGES| {
      StopsAtIndex(job.stopAt, k);
      Ended(job, w, db, k + 1, |STAGES|);
    }
  }

  /** A run fails at a stage exactly if it gets there and that stage is the first one hindered. */
  lemma FailsAtFirstHindered(job: Job, w: World, db: Database, k: nat)
    requires k < |STAGES|
    ensures OutcomeOf(Final(job, w, db)) == FailedAt(STAGES[k])
            <==> k < StopIndex(job.stopAt) && Clear(job, w, db, k) && Hindered(job, w, db, k)
  {
    var first := FirstHindered(job, w, db, 0);
    if first < StopIndex(job.stopAt) {
      FailsAtHindered(job, w, db, first);
      assert STAGES[first] == STAGES[k] ==> first == k;
    } else {
      ClearMeansNoFailure(job, w, db);
    }
  }

  /** A run completes exactly if its target is in the pipeline and nothing hinders a stage before it. */
  lemma CompletesIff(job: Job, w: World, db: Database)
    ensures OutcomeOf(Final(job, w, db)).Completed?
            <==> (job.stopAt.Some? ==> job.stopAt.value in PIPELINE) && Clear(job, w, db, StopIndex(job.stopAt))
  {
    var first := FirstHindered(job, w, db, 0);
    assert PIPELINE[0] == DRAFT && PIPELINE[1] == IMPORTED && PIPELINE[2] == VALIDATED;
    assert PIPELINE[3] == CERTIFIED && PIPELINE[4] == PUBLISHED;
    if first < StopIndex(job.stopAt) {
      FailsAtHindered(job, w, db, first);
    } else {
      ClearMeansNoFailure(job, w, db);
      RunsWhileClear(job, w, db, StopIndex(job.stopAt));
      RunKnown(job, w, db, StopIndex(job.stopAt));
    }
  }
}
