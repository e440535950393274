/**
 One execution session, the worker that runs it and a kill request, interleaved
 at every access to the session row. The kill's update is conditional on the
 status; the worker's writes are not.
 */
module KillSwitch {
  import opened Wrappers

  datatype Status = QUEUED | RUNNING | SUCCEEDED | FAILED | CANCELLED

  /** What the keys of the session's `outputJson` say. */
  datatype Key = CancellationRequested | CancelledReason | StepsCompleted | ErrorText

  datatype Row = Row(status: Status, output: set<Key>)

  /** Where the worker stands. */
  datatype Worker =
    | NotStarted
    | Loading                  // RUNNING is written, the session not yet loaded
    | Checking(step: nat)      // about to read the row before the step
    | Cleared(step: nat)       // the read found no cancellation
    | TimedOut                 // about to write FAILED
    | InStep(step: nat)        // the step's handler has started
    | Finishing                // about to write SUCCEEDED
    | WrappingUp               // SUCCEEDED is written, progress not yet reported
    | Catching                 // an error was caught, about to read the status
    | MarkingFailed            // about to write FAILED
    | Done

  /** Where the kill request stands. */
  datatype Kill =
    | Requested
    | Verified(existing: set<Key>)   // the status was read as cancellable
    | Committed(existing: set<Key>)  // the conditional update went through
    | Explained                      // the reason is written
    | FlagRequested                  // the job was found active
    | FlagRead(existing: set<Key>)   // the output was read, about to be written back
    | Ended

  datatype Access = StatusRead | StatusWrite

  /** A worker's access that throws has no effect; one that takes effect and then throws is followed by `Throw`. */
  datatype Action =
    | Start | Load | Check | Begin | Expire | Complete | Throw | WriteTimeout | WriteSucceeded | WrapUp
    | CatchRead | WriteFailed
    | KillVerify | KillCommit | KillExplain | KillFindWaiting | KillFindActive | KillFindNothing
    | KillReadFlag | KillWriteFlag

  /** What has happened since the kill committed. */
  datatype History = History(
    committedAt: Option<Worker>,     // where the worker stood when the kill committed
    firstAction: Option<Action>,     // the worker's first action after that
    firstAccess: Option<Access>,     // the worker's first use of the status after that
    startsAfter: nat)                // the step handlers started after that

  datatype System = System(total: nat, row: Row, removed: bool, worker: Worker, kill: Kill, history: History)

  function Initial(total: nat): System {
    System(total, Row(QUEUED, {}), false, NotStarted, Requested, History(None, None, None, 0))
  }

  predicate Cancellable(status: Status) {
    status == QUEUED || status == RUNNING
  }

  predicate SeesCancellation(row: Row) {
    row.status == CANCELLED || CancellationRequested in row.output
  }

  /** How the worker's action uses the status, if it does. */
  function AccessOf(a: Action): Option<Access> {
    match a
    case Start => Some(StatusWrite)
    case WriteTimeout => Some(StatusWrite)
    case WriteSucceeded => Some(StatusWrite)
    case WriteFailed => Some(StatusWrite)
    case Check => Some(StatusRead)
    case CatchRead => Some(StatusRead)
    case _ => None
  }

  /** The history after an action of the worker. */
  function Recorded(h: History, a: Action): History {
    if h.committedAt.None? then h
    else
      h.(firstAction := if h.firstAction.None? then Some(a) else h.firstAction,
         firstAccess := if h.firstAccess.None? then AccessOf(a) else h.firstAccess,
         startsAfter := h.startsAfter + if a.Begin? then 1 else 0)
  }

  function AfterLoad(s: System): Worker {
    if s.total > 0 then Checking(0) else Finishing
  }

  predicate Enabled(s: System, a: Action) {
    match a
    case Start => s.worker.NotStarted? && !s.removed
    case Load => s.worker.Loading?
    case Check => s.worker.Checking?
    case Begin => s.worker.Cleared?
    case Expire => s.worker.Cleared?
    case Complete => s.worker.InStep?
    case Throw => !s.worker.Done? && (s.worker.NotStarted? ==> !s.removed)
    case WriteTimeout => s.worker.TimedOut?
    case WriteSucceeded => s.worker.Finishing?
    case WrapUp => s.worker.WrappingUp?
    case CatchRead => s.worker.Catching?
    case WriteFailed => s.worker.MarkingFailed?
    case KillVerify => s.kill.Requested?
    case KillCommit => s.kill.Verified?
    case KillExplain => s.kill.Committed?
    case KillFindWaiting => s.kill.Explained? && s.worker.NotStarted?
    case KillFindActive => s.kill.Explained?
    case KillFindNothing => s.kill.Explained?
    case KillReadFlag => s.kill.FlagRequested?
    case KillWriteFlag => s.kill.FlagRead?
  }

  /** Where an error leaves the worker: before its `try` block and in its `catch` block nothing catches it. */
  function AfterThrow(w: Worker): Worker {
    if w.NotStarted? || w.Loading? || w.Catching? || w.MarkingFailed? then Done else Catching
  }

  /** The worker's own part of an action. */
  function WorkerAfter(s: System, a: Action): Worker
    requires Enabled(s, a)
  {
    match a
    case Start => Loading
    case Load => AfterLoad(s)
    case Check => if SeesCancellation(s.row) then Done else Cleared(s.worker.step)
    case Begin => InStep(s.worker.step)
    case Expire => TimedOut
    case Complete => if s.worker.step + 1 < s.total then Checking(s.worker.step + 1) else Finishing
    case Throw => AfterThrow(s.worker)
    case WriteTimeout => Catching
    case WriteSucceeded => WrappingUp
    case WrapUp => Done
    case CatchRead => if s.row.status == CANCELLED then Done else MarkingFailed
    case WriteFailed => Done
    case _ => s.worker
  }

  function RowAfter(row: Row, a: Action): Row {
    match a
    case Start => row.(status := RUNNING)
    case WriteTimeout => Row(FAILED, {ErrorText})
    case WriteFailed => Row(FAILED, {ErrorText})
    case WriteSucceeded => Row(SUCCEEDED, {StepsCompleted})
    case _ => row
  }

  function Do(s: System, a: Action): System
    requires Enabled(s, a)
  {
    match a
    case KillVerify => s.(kill := if Cancellable(s.row.status) then Verified(s.row.output) else Ended)
    case KillCommit =>
      if Cancellable(s.row.status) then
        s.(row := s.row.(status := CANCELLED), kill := Committed(s.kill.existing),
           history := s.history.(committedAt := Some(s.worker)))
      else s.(kill := Ended)
    case KillExplain => s.(row := s.row.(output := s.kill.existing + {CancelledReason}), kill := Explained)
    case KillFindWaiting => s.(removed := true, kill := Ended)
    case KillFindActive => s.(kill := FlagRequested)
    case KillFindNothing => s.(kill := Ended)
    case KillReadFlag => s.(kill := FlagRead(s.row.output))
    case KillWriteFlag => s.(row := s.row.(output := s.kill.existing + {CancellationRequested}), kill := Ended)
    case _ => s.(row := RowAfter(s.row, a), worker := WorkerAfter(s, a), history := Recorded(s.history, a))
  }

  /** An action that cannot happen now does not happen; so every list of actions is a run. */
  function Step(s: System, a: Action): System {
    if Enabled(s, a) then Do(s, a) else s
  }

  function Run(total: nat, actions: seq<Action>): System {
    if actions == [] then Initial(total) else Step(Run(total, actions[..|actions| - 1]), actions[|actions| - 1])
  }

  ghost predicate BeforeCommit(s: System) {
    && s.history == History(None, None, None, 0)
    && s.row.status != CANCELLED && CancellationRequested !in s.row.output && !s.removed
    && (s.kill.Requested? || s.kill.Verified? || s.kill.Ended?)
    && (s.kill.Verified? ==> CancellationRequested !in s.kill.existing)
    && (s.worker.NotStarted? ==> s.row.status == QUEUED)
    && (s.row.status == QUEUED ==> s.worker.NotStarted? || s.worker.Done?)
    && (s.worker.WrappingUp? ==> s.row.status == SUCCEEDED)
  }

  /** The worker's next use of the status, if it comes to one, is a read. */
  predicate ReadsNext(w: Worker, total: nat) {
    w.Checking? || w.Catching? || (w.Loading? && total > 0)
  }

  /** The worker's next access is a write of the status. */
  predicate WritesNext(w: Worker) {
    w.NotStarted? || w.TimedOut? || w.Finishing? || w.MarkingFailed?
  }

  /** Since a commit that found the worker at `at`, it has not used the status. */
  ghost predicate Untouched(s: System, at: Worker, h: History) {
    && s.row.status == CANCELLED && !s.worker.WrappingUp?
    && (h.firstAction == None ==> s.worker == at)
    && (s.worker.NotStarted? ==> at.NotStarted?)
    && (s.worker.Cleared? ==> at == s.worker && h.startsAfter == 0)
    && (h.firstAction == Some(Throw) ==> s.worker.Catching? || s.worker.Done?)
    && (WritesNext(at) ==> h.firstAction == None || h.firstAction == Some(Throw))
    && (ReadsNext(at, s.total) ==> ReadsNext(s.worker, s.total) || s.worker.Done?)
  }

  ghost predicate AfterCommit(s: System, at: Worker, h: History) {
    && (at.NotStarted? || h.startsAfter <= 1)
    && (h.startsAfter > 0 ==> at.Cleared? || at.NotStarted?)
    && (h.firstAccess.Some? ==> h.firstAction.Some?)
    && match h.firstAccess
       case None => Untouched(s, at, h)
       case Some(StatusRead) =>
         s.row.status == CANCELLED && s.worker.Done? && (WritesNext(at) ==> h.firstAction == Some(Throw))
       case Some(StatusWrite) =>
         && s.row.status != CANCELLED && !s.worker.NotStarted? && !ReadsNext(at, s.total)
         && (WritesNext(at) ==> h.firstAction != Some(Throw))
         && (at.NotStarted? || s.worker.WrappingUp? || s.worker.Catching? || s.worker.MarkingFailed? || s.worker.Done?)
  }

  ghost predicate Invariant(s: System) {
    match s.history.committedAt
    case None => BeforeCommit(s)
    case Some(at) => !s.kill.Requested? && !s.kill.Verified? && AfterCommit(s, at, s.history)
  }

  lemma InvariantKept(s: System, a: Action)
    requires Invariant(s)
    ensures Invariant(Step(s, a))
  {
  }

  lemma {:induction false} RunInvariant(total: nat, actions: seq<Action>)
    ensures Invariant(Run(total, actions))
  {
    if actions != [] {
      RunInvariant(total, actions[..|actions| - 1]);
      InvariantKept(Run(total, actions[..|actions| - 1]), actions[|actions| - 1]);
    }
  }

  /** After a kill that found the execution running, at most one more handler starts, and only one already cleared. */
  lemma AtMostOneMoreStart(total: nat, actions: seq<Action>)
    requires Run(total, actions).history.committedAt.Some? && !Run(total, actions).history.committedAt.value.NotStarted?
    ensures Run(total, actions).history.startsAfter <= 1
    ensures Run(total, actions).history.startsAfter == 1 ==> Run(total, actions).history.committedAt.value.Cleared?
  {
    RunInvariant(total, actions);
  }

  /** A committed kill has the last word exactly when the worker did not write the status next. */
  lemma KillWinsExactly(total: nat, actions: seq<Action>)
    requires Run(total, actions).history.committedAt.Some? && Run(total, actions).worker.Done?
    ensures Run(total, actions).row.status == CANCELLED <==>
            Run(total, actions).history.firstAccess != Some(StatusWrite)
  {
    RunInvariant(total, actions);
  }

  lemma {:induction false} TotalKept(total: nat, actions: seq<Action>)
    ensures Run(total, actions).total == total
  {
    if actions != [] {
      TotalKept(total, actions[..|actions| - 1]);
    }
  }

  /**
   Where the worker stands when the kill commits decides the outcome, except after a read, while it
   starts and in a handler: where it reads next the kill wins, and where it writes next it wins exactly
   if that write throws.
   */
  lemma KillOutcomeByPosition(total: nat, actions: seq<Action>)
    requires Run(total, actions).history.committedAt.Some? && Run(total, actions).worker.Done?
    ensures var s := Run(total, actions);
            && (ReadsNext(s.history.committedAt.value, total) ==> s.row.status == CANCELLED)
            && (WritesNext(s.history.committedAt.value) ==>
                  (s.row.status == CANCELLED <==> s.history.firstAction == Some(Throw)))
  {
    RunInvariant(total, actions);
    TotalKept(total, actions);
  }

  /** Once the worker is done, nothing changes the status of a session whose kill committed. */
  lemma StatusSettles(total: nat, actions: seq<Action>, a: Action)
    requires Run(total, actions).history.committedAt.Some? && Run(total, actions).worker.Done?
    ensures Step(Run(total, actions), a).row.status == Run(total, actions).row.status
    ensures Step(Run(total, actions), a).worker.Done?
  {
    RunInvariant(total, actions);
  }

  lemma RunSnoc(total: nat, actions: seq<Action>, a: Action)
    ensures Run(total, actions + [a]) == Step(Run(total, actions), a)
  {
    assert (actions + [a])[..|actions|] == actions;
  }

  /** An execution that nothing has disturbed so far. */
  function Undisturbed(total: nat, worker: Worker): System {
    System(total, Row(RUNNING, {}), false, worker, Requested, History(None, None, None, 0))
  }

  lemma OneStep(total: nat, actions: seq<Action>, i: nat) returns (more: seq<Action>)
    requires i < total && Run(total, actions) == Undisturbed(total, Checking(i))
    ensures Run(total, more) == Undisturbed(total, if i + 1 < total then Checking(i + 1) else Finishing)
  {
    RunSnoc(total, actions, Check);
    var a := actions + [Check];
    assert Run(total, a) == Undisturbed(total, Cleared(i));
    RunSnoc(total, a, Begin);
    var b := a + [Begin];
    assert Run(total, b) == Undisturbed(total, InStep(i));
    RunSnoc(total, b, Complete);
    more := b + [Complete];
  }

  lemma {:induction false} AllSteps(total: nat, actions: seq<Action>, i: nat) returns (more: seq<Action>)
    requires i < total && Run(total, actions) == Undisturbed(total, Checking(i))
    ensures Run(total, more) == Undisturbed(total, Finishing)
    decreases total - i
  {
    more := OneStep(total, actions, i);
    if i + 1 < total {
      more := AllSteps(total, more, i + 1);
    }
  }

  lemma ReachesFinishing(total: nat) returns (actions: seq<Action>)
    requires total > 0
    ensures Run(total, actions) == Undisturbed(total, Finishing)
  {
    RunSnoc(total, [], Start);
    var started := [] + [Start];
    assert Run(total, started) == Undisturbed(total, Loading);
    RunSnoc(total, started, Load);
    actions := AllSteps(total, started + [Load], 0);
  }

  /** A kill can succeed and still be overwritten: the session ends SUCCEEDED, with the reason of its cancellation. */
  lemma KillOverwritten(total: nat) returns (actions: seq<Action>)
    requires total > 0
    ensures Run(total, actions).history.committedAt == Some(Finishing) && Run(total, actions).worker.Done?
    ensures Run(total, actions).row == Row(SUCCEEDED, {CancelledReason})
  {
    var a := ReachesFinishing(total);
    RunSnoc(total, a, KillVerify);
    var b := a + [KillVerify];
    assert Run(total, b) == System(total, Row(RUNNING, {}), false, Finishing, Verified({}),
                                   History(None, None, None, 0));
    RunSnoc(total, b, KillCommit);
    var c := b + [KillCommit];
    assert Run(total, c) == System(total, Row(CANCELLED, {}), false, Finishing, Committed({}),
                                   History(Some(Finishing), None, None, 0));
    RunSnoc(total, c, WriteSucceeded);
    var d := c + [WriteSucceeded];
    var h := History(Some(Finishing), Some(WriteSucceeded), Some(StatusWrite), 0);
    assert Run(total, d) == System(total, Row(SUCCEEDED, {StepsCompleted}), false, WrappingUp, Committed({}), h);
    RunSnoc(total, d, WrapUp);
    var e := d + [WrapUp];
    assert Run(total, e) == System(total, Row(SUCCEEDED, {StepsCompleted}), false, Done, Committed({}), h);
    RunSnoc(total, e, KillExplain);
    actions := e + [KillExplain];
    assert {} + {CancelledReason} == {CancelledReason};
  }

  /** A kill that commits before the worker's first write is lost, and its flag can leave the session RUNNING for
      good. */
  lemma KillLeavesRunning(total: nat) returns (actions: seq<Action>)
    requires total > 0
    ensures Run(total, actions).history.committedAt == Some(NotStarted)
    ensures Run(total, actions).worker.Done? && Run(total, actions).kill.Ended?
    ensures Run(total, actions).row.status == RUNNING
  {
    RunSnoc(total, [], KillVerify);
    var a := [] + [KillVerify];
    RunSnoc(total, a, KillCommit);
    var b := a + [KillCommit];
    var h := History(Some(NotStarted), None, None, 0);
    assert Run(total, b) == System(total, Row(CANCELLED, {}), false, NotStarted, Committed({}), h);
    RunSnoc(total, b, KillExplain);
    var c := b + [KillExplain];
    RunSnoc(total, c, KillFindActive);
    var d := c + [KillFindActive];
    assert Run(total, d) == System(total, Row(CANCELLED, {} + {CancelledReason}), false, NotStarted, FlagRequested, h);
    RunSnoc(total, d, Start);
    var e := d + [Start];
    RunSnoc(total, e, Load);
    var f := e + [Load];
    assert Run(total, f).worker == Checking(0) && Run(total, f).kill == FlagRequested
      && Run(total, f).row.status == RUNNING;
    RunSnoc(total, f, KillReadFlag);
    var g := f + [KillReadFlag];
    RunSnoc(total, g, KillWriteFlag);
    var i := g + [KillWriteFlag];
    assert Run(total, i).worker == Checking(0) && CancellationRequested in Run(total, i).row.output;
    RunSnoc(total, i, Check);
    actions := i + [Check];
  }
}
