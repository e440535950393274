/**
 The pack import pipeline: nine stages over one job, each writing to the
 database as it goes, stopped early by a target status or by a failing stage.
 */
module PackPipeline {
  import opened Wrappers
  import opened PackDomain
  import opened Texts

  datatype Stage = Fetch | Parse | Normalize | Validate | Scan | Certify | Sign | Publish | Install

  const STAGES: seq<Stage> := [Fetch, Parse, Normalize, Validate, Scan, Certify, Sign, Publish, Install]

  /** The status a stage leads to. */
  function Target(stage: Stage): Option<Status> {
    match stage
    case Normalize => Some(DRAFT)
    case Validate => Some(IMPORTED)
    case Scan => Some(VALIDATED)
    case Certify => Some(CERTIFIED)
    case Publish => Some(PUBLISHED)
    case _ => None
  }

  predicate StopsBefore(stopAt: Option<Status>, stage: Stage) {
    stopAt.Some? && Target(stage).Some? && IndexOf(Target(stage).value) > IndexOf(stopAt.value)
  }

  datatype Manifest = Manifest(
    name: string, version: string,
    maxConcurrency: Option<real>, timeoutMs: Option<real>, memoryMb: Option<real>)

  /** Accesses to the database and to the job, each of which may throw; one that throws has no effect. */
  datatype Access =
    | ReportStart(stage: Stage) | ReportEnd(stage: Stage)      // the job's progress around a stage
    | FindPack | FindVersion | CreatePack | CreateVersion | WriteStatus(to: Status)
    | CreateCertification | WriteChecksum | CreateInstallation

  datatype Job = Job(stopAt: Option<Status>, autoInstall: bool, tenant: Option<string>)

  /** What the run meets: the source, its manifest if it parses, and which accesses throw. */
  datatype World = World(
    fetches: bool, parsed: Option<Manifest>, key: string -> string, hash: Manifest -> string, faults: set<Access>)

  type VersionId = (string, string)

  datatype Version = Version(status: Status, checksum: Option<string>, manifest: Manifest)

  datatype Database = Database(
    packs: set<string>, versions: map<VersionId, Version>,
    certifications: set<VersionId>, installations: set<(VersionId, string)>)

  datatype Context = Context(
    fetched: bool, manifest: Option<Manifest>, pack: Option<string>, version: Option<VersionId>,
    signature: Option<string>)

  /** The database, the job's context, and the statuses written to the job's version row, in order. */
  datatype Import = Import(db: Database, ctx: Context, writes: seq<Status>)

  const NOTHING := Context(false, None, None, None, None)

  predicate Over(value: Option<real>, limit: real) {
    value.Some? && value.value > limit
  }

  predicate Acceptable(m: Manifest) {
    !Over(m.maxConcurrency, 100.0) && !Over(m.timeoutMs, 3600000.0) && !Over(m.memoryMb, 4096.0) && Units(m.name) <= 128
  }

  /** The state a stage leaves, and whether it returned normally. */
  datatype Done = Done(state: Import, ok: bool)

  /** Updating a row that is not there throws. */
  function WroteStatus(w: World, s: Import, to: Status): Done {
    if WriteStatus(to) in w.faults || s.ctx.version.None? || s.ctx.version.value !in s.db.versions then Done(s, false)
    else
      var id := s.ctx.version.value;
      Done(s.(db := s.db.(versions := s.db.versions[id := s.db.versions[id].(status := to)]),
              writes := s.writes + [to]), true)
  }

  function Transitioned(w: World, s: Import, from: Status, to: Status): Done {
    if !CanTransition(from, to, PlatformAdmin) then Done(s, false) else WroteStatus(w, s, to)
  }

  function CreatedVersion(w: World, s: Import, m: Manifest, key: string): Done {
    var t := s.(ctx := s.ctx.(pack := Some(key)));
    if CreateVersion in w.faults || (key, m.version) in s.db.versions then Done(t, false)
    else
      Done(Import(s.db.(versions := s.db.versions[(key, m.version) := Version(DRAFT, None, m)]),
                  t.ctx.(version := Some((key, m.version))), s.writes + [DRAFT]), true)
  }

  function Normalized(w: World, s: Import): Done {
    if s.ctx.manifest.None? || FindPack in w.faults then Done(s, false)
    else
      var m := s.ctx.manifest.value;
      var key := w.key(m.name);
      if key in s.db.packs then
        if FindVersion in w.faults || (key, m.version) in s.db.versions then Done(s, false)
        else CreatedVersion(w, s, m, key)
      else if CreatePack in w.faults then Done(s, false)
      else CreatedVersion(w, s.(db := s.db.(packs := s.db.packs + {key})), m, key)
  }

  function Validated(w: World, s: Import): Done {
    if s.ctx.manifest.None? || s.ctx.version.None? then Done(s, false)
    else if !Acceptable(s.ctx.manifest.value) then Done(WroteStatus(w, s, DRAFT).state, false)
    else Transitioned(w, s, DRAFT, IMPORTED)
  }

  function Certified(w: World, s: Import): Done {
    if s.ctx.version.None? || CreateCertification in w.faults then Done(s, false)
    else
      Transitioned(w, s.(db := s.db.(certifications := s.db.certifications + {s.ctx.version.value})), VALIDATED,
                   CERTIFIED)
  }

  function Signed(w: World, s: Import): Done {
    if s.ctx.version.None? || s.ctx.manifest.None? then Done(s, false)
    else
      var id, hash := s.ctx.version.value, w.hash(s.ctx.manifest.value);
      var t := s.(ctx := s.ctx.(signature := Some(hash)));
      if WriteChecksum in w.faults || id !in s.db.versions then Done(t, false)
      else Done(t.(db := s.db.(versions := s.db.versions[id := s.db.versions[id].(checksum := Some(hash))])), true)
  }

  predicate Installs(job: Job) {
    job.autoInstall && job.tenant.Some?
  }

  function Installed(job: Job, w: World, s: Import): Done {
    if !Installs(job) then Done(s, true)
    else if s.ctx.pack.None? || s.ctx.version.None? || CreateInstallation in w.faults then Done(s, false)
    else
      Done(s.(db := s.db.(installations := s.db.installations + {(s.ctx.version.value, job.tenant.value)})), true)
  }

  function Executed(job: Job, w: World, stage: Stage, s: Import): Done {
    match stage
    case Fetch => if w.fetches then Done(s.(ctx := s.ctx.(fetched := true)), true) else Done(s, false)
    case Parse =>
      if s.ctx.fetched && w.parsed.Some? then Done(s.(ctx := s.ctx.(manifest := w.parsed)), true) else Done(s, false)
    case Normalize => Normalized(w, s)
    case Validate => Validated(w, s)
    case Scan => if s.ctx.version.None? then Done(s, false) else Transitioned(w, s, IMPORTED, VALIDATED)
    case Certify => Certified(w, s)
    case Sign => Signed(w, s)
    case Publish => if s.ctx.version.None? then Done(s, false) else WroteStatus(w, s, PUBLISHED)
    case Install => Installed(job, w, s)
  }

  datatype Mode = Running | Stopped | Failed(stage: Stage)

  datatype Progress = Progress(state: Import, mode: Mode)

  /** One turn of the loop: stop before the stage, or execute it between two reports. */
  function Advanced(job: Job, w: World, stage: Stage, p: Progress): Progress {
    if p.mode != Running then p
    else if StopsBefore(job.stopAt, stage) then p.(mode := Stopped)
    else if ReportStart(stage) in w.faults then p.(mode := Failed(stage))
    else
      var done := Executed(job, w, stage, p.state);
      Progress(done.state, if done.ok && ReportEnd(stage) !in w.faults then Running else Failed(stage))
  }

  /** After the loop has looked at the first `n` stages. */
  function After(job: Job, w: World, db: Database, n: nat): Progress
    requires n <= |STAGES|
  {
    if n == 0 then Progress(Import(db, NOTHING, []), Running)
    else Advanced(job, w, STAGES[n - 1], After(job, w, db, n - 1))
  }

  datatype Outcome = Completed(pack: string, version: VersionId) | FailedAt(stage: Stage) | NotCreated

  function OutcomeOf(p: Progress): Outcome {
    if p.mode.Failed? then FailedAt(p.mode.stage)
    else if p.state.ctx.pack.None? || p.state.ctx.version.None? then NotCreated
    else Completed(p.state.ctx.pack.value, p.state.ctx.version.value)
  }

  /** A loop that has ended stays as it is. */
  lemma {:induction false} Ended(job: Job, w: World, db: Database, n: nat, m: nat)
    requires n <= m <= |STAGES| && After(job, w, db, n).mode != Running
    ensures After(job, w, db, m) == After(job, w, db, n)
  {
    if n < m {
      Ended(job, w, db, n, m - 1);
    }
  }

  class PipelineRun {
    const job: Job
    const world: World
    var db: Database
    var ctx: Context
    ghost var writes: seq<Status>

    ghost function State(): Import
      reads this
    {
      Import(db, ctx, writes)
    }

    constructor (job: Job, world: World, db: Database)
      ensures this.job == job && this.world == world && State() == Import(db, NOTHING, [])
    {
      this.job, this.world, this.db, ctx, writes := job, world, db, NOTHING, [];
    }

    method UpdateStatus(to: Status) returns (ok: bool)
      modifies this`db, this`writes
      ensures Done(State(), ok) == WroteStatus(world, old(State()), to)
    {
      if WriteStatus(to) in world.faults || ctx.version.None? || ctx.version.value !in db.versions {
        return false;
      }
      var id := ctx.version.value;
      db := db.(versions := db.versions[id := db.versions[id].(status := to)]);
      writes := writes + [to];
      return true;
    }

    method TransitionVersion(from: Status, to: Status) returns (ok: bool)
      modifies this`db, this`writes
      ensures Done(State(), ok) == Transitioned(world, old(State()), from, to)
    {
      if !CanTransition(from, to, PlatformAdmin) {
        return false;
      }
      ok := UpdateStatus(to);
    }

    method StageNormalize() returns (ok: bool)
      modifies this
      ensures Done(State(), ok) == Normalized(world, old(State()))
    {
      if ctx.manifest.None? || FindPack in world.faults {
        return false;
      }
      var m := ctx.manifest.value;
      var key := world.key(m.name);
      if key in db.packs {
        if FindVersion in world.faults || (key, m.version) in db.versions {
          return false;
        }
      } else {
        if CreatePack in world.faults {
          return false;
        }
        db := db.(packs := db.packs + {key});
      }
      ctx := ctx.(pack := Some(key));
      if CreateVersion in world.faults || (key, m.version) in db.versions {
        return false;
      }
      db := db.(versions := db.versions[(key, m.version) := Version(DRAFT, None, m)]);
      writes := writes + [DRAFT];
      ctx := ctx.(version := Some((key, m.version)));
      return true;
    }

    method StageValidate() returns (ok: bool)
      modifies this
      ensures Done(State(), ok) == Validated(world, old(State()))
    {
      if ctx.manifest.None? || ctx.version.None? {
        return false;
      }
      if !Acceptable(ctx.manifest.value) {
        var _ := UpdateStatus(DRAFT);
        return false;
      }
      ok := TransitionVersion(DRAFT, IMPORTED);
    }

    method StageCertify() returns (ok: bool)
      modifies this
      ensures Done(State(), ok) == Certified(world, old(State()))
    {
      if ctx.version.None? || CreateCertification in world.faults {
        return false;
      }
      db := db.(certifications := db.certifications + {ctx.version.value});
      ok := TransitionVersion(VALIDATED, CERTIFIED);
    }

    method StageSign() returns (ok: bool)
      modifies this
      ensures Done(State(), ok) == Signed(world, old(State()))
    {
      if ctx.version.None? || ctx.manifest.None? {
        return false;
      }
      var id, hash := ctx.version.value, world.hash(ctx.manifest.value);
      ctx := ctx.(signature := Some(hash));
      if WriteChecksum in world.faults || id !in db.versions {
        return false;
      }
      db := db.(versions := db.versions[id := db.versions[id].(checksum := Some(hash))]);
      return true;
    }

    method StageInstall() returns (ok: bool)
      modifies this`db
      ensures Done(State(), ok) == Installed(job, world, old(State()))
    {
      if !job.autoInstall || job.tenant.None? {
        return true;
      }
      if ctx.pack.None? || ctx.version.None? || CreateInstallation in world.faults {
        return false;
      }
      db := db.(installations := db.installations + {(ctx.version.value, job.tenant.value)});
      return true;
    }

    method Execute(stage: Stage) returns (ok: bool)
      modifies this
      ensures Done(State(), ok) == Executed(job, world, stage, old(State()))
    {
      match stage
      case Fetch =>
        ok := world.fetches;
        if ok {
          ctx := ctx.(fetched := true);
        }
      case Parse =>
        ok := ctx.fetched && world.parsed.Some?;
        if ok {
          ctx := ctx.(manifest := world.parsed);
        }
      case Normalize => ok := StageNormalize();
      case Validate => ok := StageValidate();
      case Scan =>
        ok := ctx.version.Some?;
        if ok {
          ok := TransitionVersion(IMPORTED, VALIDATED);
        }
      case Certify => ok := StageCertify();
      case Sign => ok := StageSign();
      case Publish =>
        ok := ctx.version.Some?;
        if ok {
          ok := UpdateStatus(PUBLISHED);
        }
      case Install => ok := StageInstall();
    }

    method Advance(stage: Stage) returns (mode: Mode)
      modifies this
      ensures Progress(State(), mode) == Advanced(job, world, stage, Progress(old(State()), Running))
    {
      if StopsBefore(job.stopAt, stage) {
        return Stopped;
      }
      if ReportStart(stage) in world.faults {
        return Failed(stage);
      }
      var ok := Execute(stage);
      return if ok && ReportEnd(stage) !in world.faults then Running else Failed(stage);
    }

    /** The loop over the stages, with its early stop and its first failure. */
    method RunStages() returns (mode: Mode)
      requires ctx == NOTHING && writes == []
      modifies this
      ensures Progress(State(), mode) == After(job, world, old(db), |STAGES|)
    {
      mode := Running;
      for i := 0 to |STAGES|
        invariant mode == Running
        invariant After(job, world, old(db), i) == Progress(State(), Running)
      {
        mode := Advance(STAGES[i]);
        if mode != Running {
          Ended(job, world, old(db), i + 1, |STAGES|);
          return;
        }
      }
    }

    method RunPackImportPipeline() returns (outcome: Outcome)
      requires ctx == NOTHING && writes == []
      modifies this
      ensures State() == After(job, world, old(db), |STAGES|).state
      ensures outcome == OutcomeOf(After(job, world, old(db), |STAGES|))
    {
      var mode := RunStages();
      if mode.Failed? {
        return FailedAt(mode.stage);
      }
      if ctx.pack.None? || ctx.version.None? {
        return NotCreated;
      }
      return Completed(ctx.pack.value, ctx.version.value);
    }
  }
}
