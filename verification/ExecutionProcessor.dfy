/**
 The worker and the kill request as programs over one session row. Between any
 two accesses of the worker the kill may take any of its steps; whatever it
 takes, the two together perform a run of the kill switch's state machine.
 */
module ExecutionProcessor {
  import opened Wrappers
  import opened KillSwitch

  predicate IsKillStep(a: Action) {
    a.KillVerify? || a.KillCommit? || a.KillExplain? || a.KillFindWaiting? || a.KillFindActive? || a.KillFindNothing?
    || a.KillReadFlag? || a.KillWriteFlag?
  }

  /** How a step goes. */
  datatype Fate =
    | Completes
    | ReadThrows               // the cancellation check throws
    | Expires(written: bool)   // the time is up before it starts, and FAILED is written or that write throws
    | RecordThrows             // its step row cannot be written
    | HandlerThrows            // the handler throws, or the writes and the report after it

  /** Which of the accesses around the steps work. */
  datatype Faults = Faults(
    starts: bool,     // writing RUNNING
    loads: bool,      // the report after it, and loading the session
    succeeds: bool,   // writing SUCCEEDED
    reports: bool,    // the report after it
    rereads: bool,    // reading the status of a failed execution
    marks: bool)      // writing FAILED there
  {
    predicate Smooth() { starts && loads && succeeds && reports }

    predicate Recovers() { rereads && marks }
  }

  /** The row after a caught error with no kill in between. */
  function CaughtRow(row: Row, f: Faults): Row {
    if row.status == CANCELLED || !f.Recovers() then row else Row(FAILED, {ErrorText})
  }

  function ExpiredRow(row: Row, fate: Fate): Row {
    if fate == Expires(true) then Row(FAILED, {ErrorText}) else row
  }

  /** Where the queue has the job when the kill looks for it. */
  datatype JobState = Waiting | Active | Absent

  datatype Returned = Cancelled(steps: nat) | Succeeded(steps: nat) | Threw

  /** The kill does nothing. */
  ghost predicate Quiet(others: nat -> seq<Action>) {
    forall p :: others(p) == []
  }

  ghost predicate AllComplete(fate: nat -> Fate, n: nat) {
    forall i: nat :: i < n ==> fate(i) == Completes
  }

  class Session {
    const total: nat
    var row: Row
    var removed: bool
    var kill: Kill
    var waiting: bool          // the job is still in the queue
    ghost var worker: Worker
    ghost var history: History
    ghost var actions: seq<Action>

    ghost function Now(): System
      reads this
    {
      System(total, row, removed, worker, kill, history)
    }

    /** The session is where the run of all actions taken so far leads. */
    ghost predicate Follows()
      reads this
    {
      Now() == Run(total, actions) && (waiting <==> worker.NotStarted?)
    }

    /** Exactly this action was taken since `before`. */
    ghost predicate Took(before: System, earlier: seq<Action>, a: Action)
      reads this
    {
      Enabled(before, a) && Now() == Do(before, a) && actions == earlier + [a] && Follows()
    }

    constructor (total: nat)
      ensures this.total == total && Now() == Initial(total) && actions == [] && Follows()
    {
      this.total := total;
      row, removed, kill, waiting := Row(QUEUED, {}), false, Requested, true;
      worker, history, actions := NotStarted, History(None, None, None, 0), [];
    }

    /** Keeps the ghost side in step with an access to the row. */
    ghost method Record(before: System, a: Action)
      requires before == Run(total, actions) && Enabled(before, a) && before.total == total
      requires row == Do(before, a).row && removed == Do(before, a).removed && kill == Do(before, a).kill
      requires waiting <==> Do(before, a).worker.NotStarted?
      modifies this`worker, this`history, this`actions
      ensures Took(before, old(actions), a)
    {
      RunSnoc(total, actions, a);
      worker, history, actions := Do(before, a).worker, Do(before, a).history, actions + [a];
    }

    // ---- The worker's accesses ----

    method UpdateRunning()
      requires Follows() && waiting && !removed
      modifies this
      ensures Took(old(Now()), old(actions), Start)
    {
      ghost var before := Now();
      waiting := false;
      row := row.(status := RUNNING);
      Record(before, Start);
    }

    /** The write that would take the job off the queue throws. */
    method FailToStart()
      requires Follows() && waiting && !removed
      modifies this
      ensures Took(old(Now()), old(actions), Throw) && row == old(row) && worker.Done?
    {
      ghost var before := Now();
      waiting := false;
      Record(before, Throw);
    }

    method IsCancelled() returns (cancelled: bool)
      requires Follows() && worker.Checking?
      modifies this
      ensures Took(old(Now()), old(actions), Check)
      ensures cancelled <==> worker.Done?
      ensures row == old(row) && (cancelled <==> SeesCancellation(row))
    {
      ghost var before := Now();
      cancelled := row.status == CANCELLED || CancellationRequested in row.output;
      Record(before, Check);
    }

    method MarkFailed(a: Action)
      requires Follows() && (a == WriteTimeout || a == WriteFailed) && Enabled(Now(), a)
      modifies this
      ensures Took(old(Now()), old(actions), a) && row.status == FAILED
    {
      ghost var before := Now();
      row := Row(FAILED, {ErrorText});
      Record(before, a);
    }

    method UpdateSucceeded()
      requires Follows() && worker.Finishing?
      modifies this
      ensures Took(old(Now()), old(actions), WriteSucceeded) && row.status == SUCCEEDED
    {
      ghost var before := Now();
      row := Row(SUCCEEDED, {StepsCompleted});
      Record(before, WriteSucceeded);
    }

    /** Progress of the worker that touches nothing the kill can see. */
    ghost method Advance(a: Action)
      requires Follows() && Enabled(Now(), a) && !waiting
      requires a == Load || a == Begin || a == Expire || a == Complete || a == Throw || a == WrapUp
      modifies this`worker, this`history, this`actions
      ensures Took(old(Now()), old(actions), a) && Follows()
    {
      Record(Now(), a);
    }

    // ---- The kill's accesses ----

    method KillStep(a: Action)
      requires Follows() && IsKillStep(a) && Enabled(Now(), a)
      modifies this
      ensures Took(old(Now()), old(actions), a)
    {
      ghost var before := Now();
      match a {
        case KillVerify => kill := if Cancellable(row.status) then Verified(row.output) else Ended;
        case KillCommit =>
          if Cancellable(row.status) {
            row := row.(status := CANCELLED);
            kill := Committed(kill.existing);
          } else {
            kill := Ended;
          }
        case KillExplain =>
          row := row.(output := kill.existing + {CancelledReason});
          kill := Explained;
        case KillFindWaiting =>
          removed := true;
          kill := Ended;
        case KillFindActive => kill := FlagRequested;
        case KillFindNothing => kill := Ended;
        case KillReadFlag => kill := FlagRead(row.output);
        case KillWriteFlag =>
          row := row.(output := kill.existing + {CancellationRequested});
          kill := Ended;
      }
      Record(before, a);
    }

    /** Whether the kill is where the step starts. */
    method CanKill(a: Action) returns (enabled: bool)
      requires Follows() && IsKillStep(a)
      ensures enabled <==> Enabled(Now(), a)
    {
      match a {
        case KillVerify => enabled := kill.Requested?;
        case KillCommit => enabled := kill.Verified?;
        case KillExplain => enabled := kill.Committed?;
        case KillReadFlag => enabled := kill.FlagRequested?;
        case KillWriteFlag => enabled := kill.FlagRead?;
        case KillFindWaiting => enabled := kill.Explained? && waiting;
        case _ => enabled := kill.Explained?;
      }
    }

    /** The kill takes those of the given steps that it can take. */
    method Interfere(steps: seq<Action>)
      requires Follows()
      modifies this
      ensures Follows() && worker == old(worker)
      ensures steps == [] ==> Now() == old(Now())
    {
      for i := 0 to |steps|
        invariant Follows() && worker == old(worker)
        invariant i == 0 ==> Now() == old(Now())
      {
        var a := steps[i];
        if IsKillStep(a) {
          var enabled := CanKill(a);
          if enabled {
            KillStep(a);
          }
        }
      }
    }

    // ---- The two programs ----

    /** A caught error marks the session failed unless it is cancelled by now. */
    method Catch(f: Faults, others: nat -> seq<Action>)
      requires Follows() && worker.Catching?
      modifies this
      ensures Follows() && worker.Done?
      ensures Quiet(others) ==> row == CaughtRow(old(row), f)
    {
      Interfere(others(3 * total + 3));
      if !f.rereads {
        Advance(Throw);
        return;
      }
      ghost var before := Now();
      var cancelled := row.status == CANCELLED;
      Record(before, CatchRead);
      Interfere(others(3 * total + 4));
      if cancelled {
        return;
      }
      if f.marks {
        MarkFailed(WriteFailed);
      } else {
        Advance(Throw);
      }
    }

    /** An access inside the steps throws. */
    method Fail(f: Faults, others: nat -> seq<Action>)
      requires Follows() && Enabled(Now(), Throw) && AfterThrow(worker) == Catching && !waiting
      modifies this
      ensures Follows() && worker.Done?
      ensures Quiet(others) ==> row == CaughtRow(old(row), f)
    {
      Advance(Throw);
      Catch(f, others);
    }

    /** The time is up: the session is marked failed, or that write throws; then the error is caught. */
    method TimeOut(i: nat, written: bool, f: Faults, others: nat -> seq<Action>)
      requires Follows() && worker == Cleared(i) && i < total
      modifies this
      ensures Follows() && worker.Done?
      ensures Quiet(others) ==> row == CaughtRow(ExpiredRow(old(row), Expires(written)), f)
    {
      Advance(Expire);
      Interfere(others(3 * i + 3));
      if written {
        MarkFailed(WriteTimeout);
        Catch(f, others);
      } else {
        Fail(f, others);
      }
    }

    method RunHandler(i: nat, completes: bool, f: Faults, others: nat -> seq<Action>) returns (completed: bool)
      requires Follows() && worker == Cleared(i) && i < total
      modifies this
      ensures Follows() && completed == completes
      ensures worker == if !completed then Done else if i + 1 < total then Checking(i + 1) else Finishing
      ensures Quiet(others) ==> row == if completed then old(row) else CaughtRow(old(row), f)
    {
      Advance(Begin);
      Interfere(others(3 * i + 3));
      if completes {
        Advance(Complete);
        return true;
      }
      Fail(f, others);
      return false;
    }

    /** One step: the cancellation check, the time limit, the step row, the handler. */
    method ExecuteStep(i: nat, fate: Fate, f: Faults, others: nat -> seq<Action>) returns (ended: Option<Returned>)
      requires Follows() && worker == Checking(i) && i < total
      modifies this
      ensures Follows()
      ensures ended.None? ==> fate == Completes && worker == if i + 1 < total then Checking(i + 1) else Finishing
      ensures ended.Some? ==> worker.Done?
      ensures Quiet(others) && old(row) == Row(RUNNING, {}) ==>
                if fate == Completes then ended == None && row == Row(RUNNING, {})
                else ended == Some(Threw) && row == CaughtRow(ExpiredRow(Row(RUNNING, {}), fate), f)
    {
      Interfere(others(3 * i + 1));
      if fate == ReadThrows {
        Fail(f, others);
        return Some(Threw);
      }
      var cancelled := IsCancelled();
      if cancelled {
        return Some(Cancelled(i));
      }
      Interfere(others(3 * i + 2));
      if fate.Expires? {
        TimeOut(i, fate.written, f, others);
        return Some(Threw);
      }
      if fate == RecordThrows {
        Fail(f, others);
        return Some(Threw);
      }
      var completed := RunHandler(i, fate == Completes, f, others);
      return if completed then None else Some(Threw);
    }

    /** Writing SUCCEEDED and reporting it; an error after the write is caught too, and overwrites it. */
    method Finish(f: Faults, others: nat -> seq<Action>) returns (r: Returned)
      requires Follows() && worker.Finishing?
      modifies this
      ensures Follows() && worker.Done?
      ensures r == if f.succeeds && f.reports then Succeeded(total) else Threw
      ensures Quiet(others) ==>
                row == if !f.succeeds then CaughtRow(old(row), f)
                       else if f.reports then Row(SUCCEEDED, {StepsCompleted})
                       else CaughtRow(Row(SUCCEEDED, {StepsCompleted}), f)
    {
      Interfere(others(3 * total + 1));
      if !f.succeeds {
        Fail(f, others);
        return Threw;
      }
      UpdateSucceeded();
      Interfere(others(3 * total + 2));
      if !f.reports {
        Fail(f, others);
        return Threw;
      }
      Advance(WrapUp);
      return Succeeded(total);
    }

    method ExecuteSteps(fate: nat -> Fate, f: Faults, others: nat -> seq<Action>) returns (r: Returned)
      requires Follows() && worker == if total > 0 then Checking(0) else Finishing
      modifies this
      ensures Follows() && worker.Done?
      ensures Quiet(others) && old(row) == Row(RUNNING, {}) ==>
                if AllComplete(fate, total) && f.succeeds && f.reports then
                  r == Succeeded(total) && row == Row(SUCCEEDED, {StepsCompleted})
                else r == Threw && (f.Recovers() ==> row == Row(FAILED, {ErrorText}))
    {
      for i := 0 to total
        invariant Follows() && worker == if i < total then Checking(i) else Finishing
        invariant Quiet(others) && old(row) == Row(RUNNING, {}) ==> row == Row(RUNNING, {}) && AllComplete(fate, i)
      {
        var ended := ExecuteStep(i, fate(i), f, others);
        if ended.Some? {
          return ended.value;
        }
      }
      r := Finish(f, others);
    }

    /**
     The worker, with the kill steps of `others(p)` at its place number `p`. Undisturbed, a session succeeds
     exactly if all its accesses and steps do, and is marked failed otherwise if the accesses for that work.
     */
    method RunExecution(fate: nat -> Fate, f: Faults, others: nat -> seq<Action>) returns (r: Returned)
      requires Follows() && waiting && !removed
      modifies this
      ensures Follows() && worker.Done?
      ensures history.committedAt.Some? ==> (row.status == CANCELLED <==> history.firstAccess != Some(StatusWrite))
      ensures Quiet(others) && old(row.output) == {} ==>
                if AllComplete(fate, total) && f.Smooth() then
                  r == Succeeded(total) && row == Row(SUCCEEDED, {StepsCompleted})
                else
                  && r == Threw
                  && (!f.starts ==> row == old(row))
                  && (f.starts && !f.loads ==> row == Row(RUNNING, {}))
                  && (f.starts && f.loads && f.rereads && f.marks ==> row == Row(FAILED, {ErrorText}))
    {
      if !f.starts {
        FailToStart();
        r := Threw;
      } else {
        UpdateRunning();
        Interfere(others(0));
        if f.loads {
          Advance(Load);
          r := ExecuteSteps(fate, f, others);
        } else {
          Advance(Throw);
          r := Threw;
        }
      }
      if history.committedAt.Some? {
        KillWinsExactly(total, actions);
      }
    }

    method Commit() returns (ok: bool)
      requires Follows() && kill.Requested?
      modifies this
      ensures Follows() && worker == old(worker) && waiting == old(waiting) && removed == old(removed)
      ensures ok <==> Cancellable(old(row.status))
      ensures if ok then kill.Explained? && row == Row(CANCELLED, old(row.output) + {CancelledReason})
              else kill.Ended? && row == old(row)
    {
      KillStep(KillVerify);
      if kill.Ended? {
        return false;
      }
      KillStep(KillCommit);
      KillStep(KillExplain);
      return true;
    }

    method StopJob(job: JobState)
      requires Follows() && kill.Explained? && (job == Waiting <==> waiting)
      modifies this
      ensures Follows() && kill.Ended? && worker == old(worker)
      ensures row == old(row).(output := old(row.output) + if job == Active then {CancellationRequested} else {})
      ensures removed <==> old(removed) || job == Waiting
    {
      match job {
        case Waiting => KillStep(KillFindWaiting);
        case Absent => KillStep(KillFindNothing);
        case Active =>
          KillStep(KillFindActive);
          KillStep(KillReadFlag);
          KillStep(KillWriteFlag);
      }
    }

    /** The whole kill request with nothing between its steps. */
    method Kill(job: JobState) returns (ok: bool)
      requires Follows() && kill.Requested? && (job == Waiting <==> waiting)
      modifies this
      ensures Follows() && kill.Ended? && worker == old(worker)
      ensures ok <==> Cancellable(old(row.status))
      ensures !ok ==> row == old(row)
      ensures ok ==> row == Row(CANCELLED, old(row.output) + {CancelledReason}
                                           + if job == Active then {CancellationRequested} else {})
      ensures removed <==> old(removed) || (ok && job == Waiting)
    {
      ok := Commit();
      if ok {
        StopJob(job);
      }
    }
  }
}
