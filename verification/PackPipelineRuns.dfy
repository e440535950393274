/** What a pipeline run leaves behind, for every target status, every source and every set of failing accesses. */
module PackPipelineRuns {
  import opened Wrappers
  import opened PackDomain
  import opened PackPipeline

  /** How many statuses the first `n` stages write. */
  function Written(n: nat): (k: nat)
    ensures k <= |PIPELINE|
  {
    if n < 3 then 0 else if n <= 6 then n - 2 else if n == 7 then 4 else 5
  }

  function IdOf(w: World): VersionId
    requires w.parsed.Some?
  {
    (w.key(w.parsed.value.name), w.parsed.value.version)
  }

  /** The database after the first `n` stages all succeeded. */
  function DatabaseAfter(job: Job, w: World, db: Database, n: nat): Database
    requires n >= 3 ==> w.parsed.Some?
  {
    if n < 3 then db
    else
      var id := IdOf(w);
      var checksum := if n >= 7 then Some(w.hash(w.parsed.value)) else None;
      Database(
        db.packs + {id.0},
        db.versions[id := Version(PIPELINE[Written(n) - 1], checksum, w.parsed.value)],
        if n >= 6 then db.certifications + {id} else db.certifications,
        if n >= 9 && Installs(job) then db.installations + {(id, job.tenant.value)} else db.installations)
  }

  function ContextAfter(w: World, n: nat): Context
    requires n >= 2 ==> w.parsed.Some?
  {
    Context(n >= 1, if n >= 2 then w.parsed else None, if n >= 3 then Some(IdOf(w).0) else None,
            if n >= 3 then Some(IdOf(w)) else None, if n >= 7 then Some(w.hash(w.parsed.value)) else None)
  }

  /** The first `n` stages can all have succeeded: the manifest parsed, and the version was new. */
  predicate Possible(w: World, db: Database, n: nat) {
    (n >= 2 ==> w.parsed.Some?) && (n >= 3 ==> IdOf(w) !in db.versions)
  }

  function ImportAfter(job: Job, w: World, db: Database, n: nat): Import
    requires Possible(w, db, n)
  {
    Import(DatabaseAfter(job, w, db, n), ContextAfter(w, n), PIPELINE[..Written(n)])
  }

  lemma NormalizeSucceeds(job: Job, w: World, db: Database)
    requires Possible(w, db, 2) && Normalized(w, ImportAfter(job, w, db, 2)).ok
    ensures Possible(w, db, 3) && Normalized(w, ImportAfter(job, w, db, 2)).state == ImportAfter(job, w, db, 3)
  {
    var key := w.key(w.parsed.value.name);
    if key in db.packs {
      assert db.packs + {key} == db.packs;
    }
    assert PIPELINE[..0] + [DRAFT] == PIPELINE[..1];
  }

  /** The four stages that move the status write the next one of the pipeline. */
  lemma StatusMoves(job: Job, w: World, db: Database, n: nat)
    requires (3 <= n <= 5 || n == 7) && Possible(w, db, n)
    requires Executed(job, w, STAGES[n], ImportAfter(job, w, db, n)).ok
    ensures Executed(job, w, STAGES[n], ImportAfter(job, w, db, n)).state == ImportAfter(job, w, db, n + 1)
  {
    var k := Written(n);
    assert PIPELINE[..k] + [PIPELINE[k]] == PIPELINE[..k + 1];
    var v := DatabaseAfter(job, w, db, n).versions;
    assert v[IdOf(w) := v[IdOf(w)].(status := PIPELINE[k])] == DatabaseAfter(job, w, db, n + 1).versions;
  }

  lemma SignSucceeds(job: Job, w: World, db: Database)
    requires Possible(w, db, 6) && Signed(w, ImportAfter(job, w, db, 6)).ok
    ensures Signed(w, ImportAfter(job, w, db, 6)).state == ImportAfter(job, w, db, 7)
  {
    var v := DatabaseAfter(job, w, db, 6).versions;
    assert v[IdOf(w) := v[IdOf(w)].(checksum := Some(w.hash(w.parsed.value)))] == DatabaseAfter(job, w, db, 7).versions;
  }

  lemma InstallSucceeds(job: Job, w: World, db: Database)
    requires Possible(w, db, 8) && Installed(job, w, ImportAfter(job, w, db, 8)).ok
    ensures Installed(job, w, ImportAfter(job, w, db, 8)).state == ImportAfter(job, w, db, 9)
  {
  }

  lemma StageSucceeds(job: Job, w: World, db: Database, n: nat)
    requires n < |STAGES| && Possible(w, db, n)
    requires Executed(job, w, STAGES[n], ImportAfter(job, w, db, n)).ok
    ensures Possible(w, db, n + 1)
    ensures Executed(job, w, STAGES[n], ImportAfter(job, w, db, n)).state == ImportAfter(job, w, db, n + 1)
  {
    match STAGES[n]
    case Fetch =>
    case Parse =>
    case Normalize => NormalizeSucceeds(job, w, db);
    case Validate => StatusMoves(job, w, db, 3);
    case Scan => StatusMoves(job, w, db, 4);
    case Certify => StatusMoves(job, w, db, 5);
    case Sign => SignSucceeds(job, w, db);
    case Publish => StatusMoves(job, w, db, 7);
    case Install => InstallSucceeds(job, w, db);
  }

  /** What a stage that fails after `n` successful ones has done all the same. */
  predicate Leftover(job: Job, w: World, db: Database, n: nat, s: Import)
    requires Possible(w, db, n)
  {
    var clean := DatabaseAfter(job, w, db, n);
    && (s.writes == PIPELINE[..Written(n)] || (n == 3 && s.writes == [DRAFT, DRAFT] && !Acceptable(w.parsed.value)))
    && (s.db == clean
        || (n == 2 && s.db == clean.(packs := clean.packs + {IdOf(w).0}))
        || (n == 5 && s.db == clean.(certifications := clean.certifications + {IdOf(w)})))
  }

  lemma StageFails(job: Job, w: World, db: Database, n: nat)
    requires n < |STAGES| && Possible(w, db, n)
    requires !Executed(job, w, STAGES[n], ImportAfter(job, w, db, n)).ok
    ensures Leftover(job, w, db, n, Executed(job, w, STAGES[n], ImportAfter(job, w, db, n)).state)
  {
    if n == 3 {
      var v := DatabaseAfter(job, w, db, 3).versions;
      assert v[IdOf(w) := v[IdOf(w)].(status := DRAFT)] == v;
      assert PIPELINE[..1] + [DRAFT] == [DRAFT, DRAFT];
    }
  }

  /** The stage before which the run stops. */
  function StopIndex(stopAt: Option<Status>): (i: nat)
    ensures i <= |STAGES|
  {
    match stopAt
    case None => 9
    case Some(DRAFT) => 3
    case Some(IMPORTED) => 4
    case Some(VALIDATED) => 5
    case Some(CERTIFIED) => 7
    case Some(PUBLISHED) => 9
    case Some(_) => 2
  }

  lemma StopsAtIndex(stopAt: Option<Status>, n: nat)
    requires n < |STAGES|
    ensures n < StopIndex(stopAt) ==> !StopsBefore(stopAt, STAGES[n])
    ensures n == StopIndex(stopAt) ==> StopsBefore(stopAt, STAGES[n])
  {
  }

  /** The stage itself went through, and only the report after it threw. */
  predicate Unreported(job: Job, w: World, db: Database, k: nat, s: Import)
    requires k < |STAGES|
  {
    ReportEnd(STAGES[k]) in w.faults && Possible(w, db, k + 1) && s == ImportAfter(job, w, db, k + 1)
  }

  ghost predicate FailedHere(job: Job, w: World, db: Database, k: nat, p: Progress) {
    && k < |STAGES| && Possible(w, db, k) && p.mode == Failed(STAGES[k])
    && (Leftover(job, w, db, k, p.state) || Unreported(job, w, db, k, p.state))
  }

  /** The loop's progress is known exactly: so many successes, then nothing, a stop, or a failure. */
  ghost predicate Known(job: Job, w: World, db: Database, n: nat, p: Progress) {
    match p.mode
    case Running => n <= StopIndex(job.stopAt) && Possible(w, db, n) && p.state == ImportAfter(job, w, db, n)
    case Stopped =>
      var k := StopIndex(job.stopAt);
      k < n && Possible(w, db, k) && p.state == ImportAfter(job, w, db, k)
    case Failed(stage) =>
      exists k: nat :: k < n && k < StopIndex(job.stopAt) && FailedHere(job, w, db, k, p)
  }

  lemma KnownStep(job: Job, w: World, db: Database, n: nat, p: Progress)
    requires n < |STAGES| && p.mode == Running && Known(job, w, db, n, p)
    ensures Known(job, w, db, n + 1, Advanced(job, w, STAGES[n], p))
  {
    StopsAtIndex(job.stopAt, n);
    if !StopsBefore(job.stopAt, STAGES[n]) {
      if ReportStart(STAGES[n]) !in w.faults && Executed(job, w, STAGES[n], p.state).ok {
        StageSucceeds(job, w, db, n);
      } else if ReportStart(STAGES[n]) !in w.faults {
        StageFails(job, w, db, n);
      }
      var q := Advanced(job, w, STAGES[n], p);
      assert q.mode.Failed? ==> FailedHere(job, w, db, n, q);
    }
  }

  lemma {:induction false} RunKnown(job: Job, w: World, db: Database, n: nat)
    requires n <= |STAGES|
    ensures Known(job, w, db, n, After(job, w, db, n))
  {
    if n > 0 {
      RunKnown(job, w, db, n - 1);
      var p := After(job, w, db, n - 1);
      if p.mode == Running {
        KnownStep(job, w, db, n - 1, p);
      } else if p.mode.Failed? {
        var k: nat :| k < n - 1 && k < StopIndex(job.stopAt) && FailedHere(job, w, db, k, p);
        assert FailedHere(job, w, db, k, After(job, w, db, n));
      }
    }
  }

  function Final(job: Job, w: World, db: Database): Progress {
    After(job, w, db, |STAGES|)
  }

  lemma PipelineIsLegal(k: nat)
    requires k <= |PIPELINE|
    ensures LegalPath(PIPELINE[..k], PlatformAdmin)
  {
    forall i | 0 <= i < k - 1
      ensures CanTransition(PIPELINE[..k][i], PIPELINE[..k][i + 1], PlatformAdmin)
    {
      NextIsTheLegalMove(PIPELINE[i], PIPELINE[i + 1]);
    }
  }

  /** The first three stages do their work: the manifest arrives and a new version of it can be created. */
  predicate Creates(w: World, db: Database) {
    && w.fetches && w.parsed.Some? && IdOf(w) !in db.versions
    && FindPack !in w.faults && CreateVersion !in w.faults
    && (if IdOf(w).0 in db.packs then FindVersion !in w.faults else CreatePack !in w.faults)
    && {ReportStart(Fetch), ReportEnd(Fetch), ReportStart(Parse), ReportEnd(Parse), ReportStart(Normalize)} !! w.faults
  }

  lemma RunsToNormalize(job: Job, w: World, db: Database)
    ensures var p := After(job, w, db, 3);
            && (p.mode == Running <==>
                Creates(w, db) && StopIndex(job.stopAt) >= 3 && ReportEnd(Normalize) !in w.faults)
            && (p.state.writes != [] <==> Creates(w, db) && StopIndex(job.stopAt) >= 3)
  {
    assert After(job, w, db, 0) == Progress(Import(db, NOTHING, []), Running);
    assert After(job, w, db, 1) == Advanced(job, w, Fetch, After(job, w, db, 0));
    assert After(job, w, db, 2) == Advanced(job, w, Parse, After(job, w, db, 1));
    assert After(job, w, db, 3) == Advanced(job, w, Normalize, After(job, w, db, 2));
    StopsAtIndex(job.stopAt, 0);
    StopsAtIndex(job.stopAt, 1);
    StopsAtIndex(job.stopAt, 2);
  }

  /** A version is created and validation reached. */
  predicate ReachesValidation(job: Job, w: World, db: Database) {
    Creates(w, db) && StopIndex(job.stopAt) > 3 && {ReportEnd(Normalize), ReportStart(Validate)} !! w.faults
  }

  /** Validation then refuses the manifest and writes the version's status. */
  predicate Rejected(job: Job, w: World, db: Database) {
    ReachesValidation(job, w, db) && !Acceptable(w.parsed.value) && WriteStatus(DRAFT) !in w.faults
  }

  lemma RejectionRewrites(job: Job, w: World, db: Database)
    requires ReachesValidation(job, w, db) && !Acceptable(w.parsed.value)
    ensures Final(job, w, db).mode == Failed(Validate)
    ensures Final(job, w, db).state.writes == if WriteStatus(DRAFT) in w.faults then [DRAFT] else [DRAFT, DRAFT]
  {
    RunsToNormalize(job, w, db);
    RunKnown(job, w, db, 3);
    StopsAtIndex(job.stopAt, 3);
    assert After(job, w, db, 4) == Advanced(job, w, Validate, After(job, w, db, 3));
    assert PIPELINE[..1] == [DRAFT];
    Ended(job, w, db, 4, |STAGES|);
  }

  lemma RewrittenByValidation(job: Job, w: World, db: Database)
    requires Final(job, w, db).state.writes == [DRAFT, DRAFT]
    ensures StopIndex(job.stopAt) > 3 && w.parsed.Some? && !Acceptable(w.parsed.value)
  {
    RunKnown(job, w, db, |STAGES|);
    assert PIPELINE[0] == DRAFT && PIPELINE[1] == IMPORTED;
    var p := Final(job, w, db);
    var k: nat :| k < |STAGES| && k < StopIndex(job.stopAt) && FailedHere(job, w, db, k, p);
  }

  /** A run that ends before validation has written DRAFT at most once. */
  lemma ReachesOrEnds(job: Job, w: World, db: Database)
    ensures ReachesValidation(job, w, db) || Final(job, w, db).state.writes == After(job, w, db, 3).state.writes
            || StopIndex(job.stopAt) <= 3
  {
    RunsToNormalize(job, w, db);
    if After(job, w, db, 3).mode != Running {
      Ended(job, w, db, 3, |STAGES|);
    } else if ReportStart(Validate) in w.faults {
      StopsAtIndex(job.stopAt, 3);
      assert After(job, w, db, 4) == Advanced(job, w, Validate, After(job, w, db, 3));
      Ended(job, w, db, 4, |STAGES|);
    }
  }

  lemma EarlyWrites(job: Job, w: World, db: Database)
    ensures After(job, w, db, 3).state.writes != [DRAFT, DRAFT]
  {
    RunKnown(job, w, db, 3);
    assert PIPELINE[0] == DRAFT && PIPELINE[1] == IMPORTED;
  }

  lemma RewriteIsRejection(job: Job, w: World, db: Database)
    requires Final(job, w, db).state.writes == [DRAFT, DRAFT]
    ensures Rejected(job, w, db)
  {
    RewrittenByValidation(job, w, db);
    ReachesOrEnds(job, w, db);
    EarlyWrites(job, w, db);
    RejectionRewrites(job, w, db);
  }

  /** DRAFT is written twice exactly when a manifest is rejected after its version was created. */
  lemma DraftRewrittenIff(job: Job, w: World, db: Database)
    ensures Final(job, w, db).state.writes == [DRAFT, DRAFT] <==> Rejected(job, w, db)
  {
    if Rejected(job, w, db) {
      RejectionRewrites(job, w, db);
    } else if Final(job, w, db).state.writes == [DRAFT, DRAFT] {
      RewriteIsRejection(job, w, db);
    }
  }

  /** The statuses written are a legal path from DRAFT, checked or not, exactly when no such rejection happens. */
  lemma StatusWritesAreLegalIff(job: Job, w: World, db: Database)
    ensures var writes := Final(job, w, db).state.writes;
            && (LegalPath(writes, PlatformAdmin) <==> !Rejected(job, w, db))
            && (LegalPath(writes, PlatformAdmin) <==> writes <= PIPELINE)
  {
    RunKnown(job, w, db, |STAGES|);
    DraftRewrittenIff(job, w, db);
    var writes := Final(job, w, db).state.writes;
    if writes <= PIPELINE {
      PipelineIsLegal(|writes|);
      assert writes == PIPELINE[..|writes|];
    }
    if writes == [DRAFT, DRAFT] {
      assert !CanTransition(writes[0], writes[1], PlatformAdmin);
      assert PIPELINE[1] == IMPORTED;
    }
  }

  /** Such a run: a manifest that asks for too much concurrency, with nothing failing. */
  lemma RejectionHappens(key: string -> string, hash: Manifest -> string)
    ensures var m := Manifest("pack", "1.0.0", Some(101.0), None, None);
            var w := World(true, Some(m), key, hash, {});
            Final(Job(None, false, None), w, Database({}, map[], {}, {})).state.writes == [DRAFT, DRAFT]
  {
    var m := Manifest("pack", "1.0.0", Some(101.0), None, None);
    DraftRewrittenIff(Job(None, false, None), World(true, Some(m), key, hash, {}), Database({}, map[], {}, {}));
  }

  /** A run that completes leaves its version exactly at the target status, PUBLISHED if there is none. */
  lemma CompletesAtStop(job: Job, w: World, db: Database)
    requires OutcomeOf(Final(job, w, db)).Completed?
    ensures w.parsed.Some? && (job.stopAt.Some? ==> job.stopAt.value in PIPELINE)
    ensures var s := Final(job, w, db).state;
            && IdOf(w) in s.db.versions
            && s.db.versions[IdOf(w)].status == (if job.stopAt.None? then PUBLISHED else job.stopAt.value)
            && s.db == DatabaseAfter(job, w, db, StopIndex(job.stopAt))
  {
    RunKnown(job, w, db, |STAGES|);
    assert PIPELINE[0] == DRAFT && PIPELINE[1] == IMPORTED && PIPELINE[2] == VALIDATED;
    assert PIPELINE[3] == CERTIFIED && PIPELINE[4] == PUBLISHED;
  }

  /** A target outside the pipeline writes nothing at all, and the run throws. */
  lemma OutsideCreatesNothing(job: Job, w: World, db: Database)
    requires job.stopAt.Some? && job.stopAt.value !in PIPELINE
    ensures var p := Final(job, w, db);
            && p.state.db == db && p.state.writes == []
            && (OutcomeOf(p) == NotCreated || OutcomeOf(p) == FailedAt(Fetch) || OutcomeOf(p) == FailedAt(Parse))
  {
    RunKnown(job, w, db, |STAGES|);
    assert PIPELINE[0] == DRAFT && PIPELINE[1] == IMPORTED && PIPELINE[2] == VALIDATED;
    assert PIPELINE[3] == CERTIFIED && PIPELINE[4] == PUBLISHED;
  }

  /** Certified before it counts as such, certified and signed before published, published before installed. */
  ghost predicate Accounted(db: Database, id: VersionId, hash: string) {
    && id in db.versions
    && (Rank(db.versions[id].status) >= Rank(CERTIFIED) ==> id in db.certifications)
    && (db.versions[id].status == PUBLISHED ==> db.versions[id].checksum == Some(hash))
    && (forall tenant :: (id, tenant) in db.installations ==> db.versions[id].status == PUBLISHED)
  }

  lemma AfterAccounted(job: Job, w: World, db: Database, n: nat)
    requires 3 <= n <= |STAGES| && Possible(w, db, n)
    requires forall tenant :: (IdOf(w), tenant) !in db.installations
    ensures Accounted(DatabaseAfter(job, w, db, n), IdOf(w), w.hash(w.parsed.value))
  {
    assert n < 9 ==> DatabaseAfter(job, w, db, n).installations == db.installations;
  }

  lemma FailedIsAccounted(job: Job, w: World, db: Database, k: nat, p: Progress)
    requires FailedHere(job, w, db, k, p) && p.state.writes != []
    requires w.parsed.Some? ==> forall tenant :: (IdOf(w), tenant) !in db.installations
    ensures w.parsed.Some? && Accounted(p.state.db, IdOf(w), w.hash(w.parsed.value))
  {
    if Leftover(job, w, db, k, p.state) {
      AfterAccounted(job, w, db, k);
    } else {
      AfterAccounted(job, w, db, k + 1);
    }
  }

  lemma CreatedIsAccounted(job: Job, w: World, db: Database)
    requires Final(job, w, db).state.writes != []
    requires w.parsed.Some? ==> forall tenant :: (IdOf(w), tenant) !in db.installations
    ensures w.parsed.Some? && Accounted(Final(job, w, db).state.db, IdOf(w), w.hash(w.parsed.value))
  {
    RunKnown(job, w, db, |STAGES|);
    var p := Final(job, w, db);
    if p.mode == Stopped {
      AfterAccounted(job, w, db, StopIndex(job.stopAt));
    } else if p.mode == Running {
      AfterAccounted(job, w, db, |STAGES|);
    } else {
      var k: nat :| k < |STAGES| && FailedHere(job, w, db, k, p);
      FailedIsAccounted(job, w, db, k, p);
    }
  }

  /** Importing a version that exists already changes nothing and does not complete. */
  lemma ExistingVersionBlocks(job: Job, w: World, db: Database)
    requires w.parsed.Some? && IdOf(w) in db.versions && IdOf(w).0 in db.packs
    ensures Final(job, w, db).state.db == db && !OutcomeOf(Final(job, w, db)).Completed?
  {
    RunKnown(job, w, db, |STAGES|);
    assert db.packs + {IdOf(w).0} == db.packs;
  }

  /** Nothing stands in the way of importing the manifest as far as the pipeline goes. */
  predicate Unhindered(job: Job, w: World) {
    && w.fetches && w.parsed.Some? && Acceptable(w.parsed.value) && w.faults == {}
    && (job.stopAt.Some? ==> job.stopAt.value in PIPELINE)
  }

  lemma StageWorks(job: Job, w: World, db: Database, n: nat)
    requires n < |STAGES| && Unhindered(job, w) && IdOf(w) !in db.versions && Possible(w, db, n)
    ensures Executed(job, w, STAGES[n], ImportAfter(job, w, db, n)).ok
  {
    NextIsTheLegalMove(DRAFT, IMPORTED);
    NextIsTheLegalMove(IMPORTED, VALIDATED);
    NextIsTheLegalMove(VALIDATED, CERTIFIED);
    assert PIPELINE[0] == DRAFT && PIPELINE[1] == IMPORTED && PIPELINE[2] == VALIDATED && PIPELINE[3] == CERTIFIED;
  }

  lemma {:induction false} UnhinderedRuns(job: Job, w: World, db: Database, n: nat)
    requires Unhindered(job, w) && IdOf(w) !in db.versions && n <= StopIndex(job.stopAt)
    ensures After(job, w, db, n).mode == Running
  {
    if n > 0 {
      UnhinderedRuns(job, w, db, n - 1);
      RunKnown(job, w, db, n - 1);
      StopsAtIndex(job.stopAt, n - 1);
      StageWorks(job, w, db, n - 1);
    }
  }

  lemma UnhinderedCompletes(job: Job, w: World, db: Database)
    requires Unhindered(job, w) && IdOf(w) !in db.versions
    ensures OutcomeOf(Final(job, w, db)).Completed?
  {
    var k := StopIndex(job.stopAt);
    assert PIPELINE[0] == DRAFT && PIPELINE[1] == IMPORTED && PIPELINE[2] == VALIDATED;
    assert PIPELINE[3] == CERTIFIED && PIPELINE[4] == PUBLISHED;
    UnhinderedRuns(job, w, db, k);
    RunKnown(job, w, db, k);
    if k < |STAGES| {
      StopsAtIndex(job.stopAt, k);
      assert After(job, w, db, k + 1).mode == Stopped;
      Ended(job, w, db, k + 1, |STAGES|);
    }
  }

  /** A run that wrote no status left the versions alone. */
  lemma NothingWritten(job: Job, w: World, db: Database)
    requires Final(job, w, db).state.writes == []
    ensures Final(job, w, db).state.db.versions == db.versions
  {
    RunKnown(job, w, db, |STAGES|);
  }

  /** A run that created its version can never be repeated with success: the version is left where it was. */
  lemma RetryNeverResumes(job: Job, w: World, db: Database, job': Job, w': World)
    requires Final(job, w, db).state.writes != []
    requires w.parsed.Some? && w'.parsed.Some? && IdOf(w') == IdOf(w)
    ensures var left := Final(job, w, db).state.db;
            Final(job', w', left).state.db == left && !OutcomeOf(Final(job', w', left)).Completed?
  {
    RunKnown(job, w, db, |STAGES|);
    ExistingVersionBlocks(job', w', Final(job, w, db).state.db);
  }

  lemma StageOnlyAppends(job: Job, w: World, stage: Stage, s: Import)
    ensures s.writes <= Executed(job, w, stage, s).state.writes
  {
  }

  lemma TurnOnlyAppends(job: Job, w: World, stage: Stage, p: Progress)
    ensures p.state.writes <= Advanced(job, w, stage, p).state.writes
  {
    StageOnlyAppends(job, w, stage, p.state);
  }

  lemma {:induction false} WritesStay(job: Job, w: World, db: Database, n: nat, m: nat)
    requires n <= m <= |STAGES|
    ensures After(job, w, db, n).state.writes <= After(job, w, db, m).state.writes
  {
    if n < m {
      WritesStay(job, w, db, n, m - 1);
      TurnOnlyAppends(job, w, STAGES[m - 1], After(job, w, db, m - 1));
    }
  }

  lemma WritesIffCreates(job: Job, w: World, db: Database)
    ensures Creates(w, db) && StopIndex(job.stopAt) >= 3 <==> Final(job, w, db).state.writes != []
  {
    RunsToNormalize(job, w, db);
    RunKnown(job, w, db, 3);
    if After(job, w, db, 3).mode != Running {
      Ended(job, w, db, 3, |STAGES|);
    } else {
      WritesStay(job, w, db, 3, |STAGES|);
    }
  }

  /**
   The import of a new version can be repeated, with success once nothing hinders it any more,
   exactly when the first attempt ended before it had created the version.
   */
  lemma RetrySucceedsIff(job: Job, w: World, db: Database, job': Job, w': World)
    requires Unhindered(job', w') && IdOf(w') !in db.versions
    requires w.parsed.Some? ==> IdOf(w) == IdOf(w')
    ensures OutcomeOf(Final(job', w', Final(job, w, db).state.db)).Completed?
            <==> !(Creates(w, db) && StopIndex(job.stopAt) >= 3)
    ensures Creates(w, db) && StopIndex(job.stopAt) >= 3 <==> Final(job, w, db).state.writes != []
  {
    WritesIffCreates(job, w, db);
    if Final(job, w, db).state.writes == [] {
      NothingWritten(job, w, db);
      UnhinderedCompletes(job', w', Final(job, w, db).state.db);
    } else {
      RetryNeverResumes(job, w, db, job', w');
    }
  }
}
