/** What a kill's history records, told on the actions of the run themselves. */
module KillHistory {
  import opened Wrappers
  import opened KillSwitch

  predicate IsWorkerStep(a: Action) {
    match a
    case Start => true
    case Load => true
    case Check => true
    case Begin => true
    case Expire => true
    case Complete => true
    case Throw => true
    case WriteTimeout => true
    case WriteSucceeded => true
    case WrapUp => true
    case CatchRead => true
    case WriteFailed => true
    case _ => false
  }

  predicate WritesStatus(a: Action) {
    a == Start || a == WriteTimeout || a == WriteSucceeded || a == WriteFailed
  }

  predicate ReadsStatus(a: Action) {
    a == Check || a == CatchRead
  }

  /** Action number `i` can happen when its turn comes, and so does. */
  predicate Happens(total: nat, actions: seq<Action>, i: nat)
    requires i < |actions|
  {
    Enabled(Run(total, actions[..i]), actions[i])
  }

  /** Action number `p` is the kill's update of a session that is queued or running. */
  predicate CommitsAt(total: nat, actions: seq<Action>, p: nat)
    requires p < |actions|
  {
    && actions[p] == KillCommit && Happens(total, actions, p)
    && Run(total, actions[..p]).row.status in {QUEUED, RUNNING}
  }

  /** The places after `p` where a step handler starts. */
  function StartsAfter(total: nat, actions: seq<Action>, p: nat): set<nat> {
    set i: nat | p < i < |actions| && actions[i] == Begin && Happens(total, actions, i)
  }

  /** The worker does nothing between the places `p` and `q`. */
  predicate Idle(total: nat, actions: seq<Action>, p: nat, q: nat)
    requires q <= |actions|
  {
    forall i :: p < i < q && IsWorkerStep(actions[i]) ==> !Happens(total, actions, i)
  }

  /** The worker does not use the status between the places `p` and `q`. */
  predicate Unused(total: nat, actions: seq<Action>, p: nat, q: nat)
    requires q <= |actions|
  {
    forall i :: p < i < q && (ReadsStatus(actions[i]) || WritesStatus(actions[i])) ==> !Happens(total, actions, i)
  }

  ghost predicate FirstActionAt(total: nat, actions: seq<Action>, p: nat, i: nat, a: Action) {
    && p < i < |actions| && actions[i] == a && IsWorkerStep(a) && Happens(total, actions, i)
    && Idle(total, actions, p, i)
  }

  ghost predicate FirstAccessAt(total: nat, actions: seq<Action>, p: nat, i: nat, access: Access) {
    && p < i < |actions| && Happens(total, actions, i) && Unused(total, actions, p, i)
    && (if access == StatusWrite then WritesStatus(actions[i]) else ReadsStatus(actions[i]))
  }

  ghost predicate FirstActionTold(total: nat, actions: seq<Action>, p: nat, first: Option<Action>) {
    match first
    case None => Idle(total, actions, p, |actions|)
    case Some(a) => exists i: nat :: FirstActionAt(total, actions, p, i, a)
  }

  ghost predicate FirstAccessTold(total: nat, actions: seq<Action>, p: nat, first: Option<Access>) {
    match first
    case None => Unused(total, actions, p, |actions|)
    case Some(access) => exists i: nat :: FirstAccessAt(total, actions, p, i, access)
  }

  lemma HappensInFront(total: nat, actions: seq<Action>, i: nat)
    requires i < |actions| - 1
    ensures Happens(total, actions, i) <==> Happens(total, actions[..|actions| - 1], i)
  {
    assert actions[..|actions| - 1][..i] == actions[..i];
  }

  lemma AllHappenInFront(total: nat, actions: seq<Action>)
    requires actions != []
    ensures forall i: nat :: i < |actions| - 1 ==>
              (Happens(total, actions, i) <==> Happens(total, actions[..|actions| - 1], i))
  {
    forall i: nat | i < |actions| - 1 {
      HappensInFront(total, actions, i);
    }
  }

  lemma StartsGrow(total: nat, actions: seq<Action>, p: nat)
    requires p < |actions| - 1
    ensures var n := |actions| - 1;
            |StartsAfter(total, actions, p)|
            == |StartsAfter(total, actions[..n], p)|
               + if actions[n] == Begin && Happens(total, actions, n) then 1 else 0
  {
    var n := |actions| - 1;
    AllHappenInFront(total, actions);
    var before := StartsAfter(total, actions[..n], p);
    if actions[n] == Begin && Happens(total, actions, n) {
      assert StartsAfter(total, actions, p) == before + {n};
    } else {
      assert StartsAfter(total, actions, p) == before;
    }
  }

  lemma FirstActionStays(total: nat, actions: seq<Action>, p: nat, a: Action)
    requires p < |actions| - 1 && FirstActionTold(total, actions[..|actions| - 1], p, Some(a))
    ensures FirstActionTold(total, actions, p, Some(a))
  {
    var front := actions[..|actions| - 1];
    AllHappenInFront(total, actions);
    var i: nat :| FirstActionAt(total, front, p, i, a);
    assert FirstActionAt(total, actions, p, i, a);
  }

  lemma FirstAccessStays(total: nat, actions: seq<Action>, p: nat, access: Access)
    requires p < |actions| - 1 && FirstAccessTold(total, actions[..|actions| - 1], p, Some(access))
    ensures FirstAccessTold(total, actions, p, Some(access))
  {
    var front := actions[..|actions| - 1];
    AllHappenInFront(total, actions);
    var i: nat :| FirstAccessAt(total, front, p, i, access);
    assert FirstAccessAt(total, actions, p, i, access);
  }

  lemma FirstActionGrows(total: nat, actions: seq<Action>, p: nat)
    requires p < |actions| - 1 && FirstActionTold(total, actions[..|actions| - 1], p, None)
    ensures var a := actions[|actions| - 1];
            FirstActionTold(total, actions, p,
                            if IsWorkerStep(a) && Happens(total, actions, |actions| - 1) then Some(a) else None)
  {
    var n := |actions| - 1;
    AllHappenInFront(total, actions);
    if IsWorkerStep(actions[n]) && Happens(total, actions, n) {
      assert FirstActionAt(total, actions, p, n, actions[n]);
    }
  }

  lemma FirstAccessGrows(total: nat, actions: seq<Action>, p: nat)
    requires p < |actions| - 1 && FirstAccessTold(total, actions[..|actions| - 1], p, None)
    ensures var a := actions[|actions| - 1];
            FirstAccessTold(total, actions, p,
                            if !Happens(total, actions, |actions| - 1) then None
                            else if WritesStatus(a) then Some(StatusWrite)
                            else if ReadsStatus(a) then Some(StatusRead) else None)
  {
    var n := |actions| - 1;
    AllHappenInFront(total, actions);
    if Happens(total, actions, n) && WritesStatus(actions[n]) {
      assert FirstAccessAt(total, actions, p, n, StatusWrite);
    } else if Happens(total, actions, n) && ReadsStatus(actions[n]) {
      assert FirstAccessAt(total, actions, p, n, StatusRead);
    }
  }

  /** One action changes the history only if it happens and is the worker's. */
  lemma StepTells(s: System, a: Action)
    requires s.history.committedAt.Some? && Invariant(s)
    ensures var h, k := s.history, Step(s, a).history;
            && k.committedAt == h.committedAt
            && k.startsAfter == h.startsAfter + (if a == Begin && Enabled(s, a) then 1 else 0)
            && k.firstAction == (if h.firstAction.Some? || !Enabled(s, a) then h.firstAction
                                 else if IsWorkerStep(a) then Some(a) else None)
            && k.firstAccess == (if h.firstAccess.Some? || !Enabled(s, a) then h.firstAccess
                                 else if WritesStatus(a) then Some(StatusWrite)
                                 else if ReadsStatus(a) then Some(StatusRead) else None)
  {
  }

  lemma CommitStarts(total: nat, actions: seq<Action>, p: nat)
    requires p == |actions| - 1 && CommitsAt(total, actions, p)
    ensures Run(total, actions).history == History(Some(Run(total, actions[..p]).worker), None, None, 0)
    ensures Run(total, actions).row.status == CANCELLED
  {
    RunInvariant(total, actions[..p]);
  }

  /**
   What the history says is what happened since the commit: where the worker stood, its first action,
   its first use of the status, and how many step handlers started.
   */
  lemma {:induction false} HistoryTells(total: nat, actions: seq<Action>, p: nat)
    requires p < |actions| && CommitsAt(total, actions, p)
    ensures var h := Run(total, actions).history;
            && h.committedAt == Some(Run(total, actions[..p]).worker)
            && h.startsAfter == |StartsAfter(total, actions, p)|
            && FirstActionTold(total, actions, p, h.firstAction)
            && FirstAccessTold(total, actions, p, h.firstAccess)
  {
    var n := |actions| - 1;
    if p == n {
      CommitStarts(total, actions, p);
      assert StartsAfter(total, actions, p) == {};
    } else {
      var front := actions[..n];
      assert front[..p] == actions[..p];
      HistoryTells(total, front, p);
      RunInvariant(total, front);
      var s := Run(total, front);
      StepTells(s, actions[n]);
      StartsGrow(total, actions, p);
      if s.history.firstAction.Some? {
        FirstActionStays(total, actions, p, s.history.firstAction.value);
      } else {
        FirstActionGrows(total, actions, p);
      }
      if s.history.firstAccess.Some? {
        FirstAccessStays(total, actions, p, s.history.firstAccess.value);
      } else {
        FirstAccessGrows(total, actions, p);
      }
    }
  }

  /** Only the commit makes a history: one that knows where the worker stood knows of the place of the commit. */
  lemma {:induction false} CommittedSomewhere(total: nat, actions: seq<Action>)
    requires Run(total, actions).history.committedAt.Some?
    ensures exists p: nat :: p < |actions| && CommitsAt(total, actions, p)
  {
    var n := |actions| - 1;
    var front := actions[..n];
    if Run(total, front).history.committedAt.Some? {
      CommittedSomewhere(total, front);
      var p: nat :| p < |front| && CommitsAt(total, front, p);
      assert front[..p] == actions[..p];
      assert CommitsAt(total, actions, p);
    } else {
      assert CommitsAt(total, actions, n);
    }
  }

  /**
   After the kill's update of a session whose worker had started, at most one handler starts, and none
   unless the worker had just read that nothing was cancelled.
   */
  lemma FewStartsAfter(total: nat, actions: seq<Action>, p: nat)
    requires p < |actions| && CommitsAt(total, actions, p)
    requires !Run(total, actions[..p]).worker.NotStarted?
    ensures |StartsAfter(total, actions, p)| <= if Run(total, actions[..p]).worker.Cleared? then 1 else 0
  {
    HistoryTells(total, actions, p);
    AtMostOneMoreStart(total, actions);
  }

  /** Once the worker is done, the kill has won exactly if no write is the worker's first use of the status since. */
  lemma WonUnlessWrittenFirst(total: nat, actions: seq<Action>, p: nat)
    requires p < |actions| && CommitsAt(total, actions, p) && Run(total, actions).worker.Done?
    ensures Run(total, actions).row.status == CANCELLED
            <==> !exists i: nat :: FirstAccessAt(total, actions, p, i, StatusWrite)
  {
    HistoryTells(total, actions, p);
    KillWinsExactly(total, actions);
    var first := Run(total, actions).history.firstAccess;
    if i: nat :| FirstAccessAt(total, actions, p, i, StatusWrite) {
      if first.Some? {
        var j: nat :| FirstAccessAt(total, actions, p, j, first.value);
        assert i == j;
      }
    }
  }

  // ---- The worker's own course ----

  /** How often an action happens in the run. */
  function Times(total: nat, actions: seq<Action>, a: Action): nat {
    if actions == [] then 0
    else
      var front, last := actions[..|actions| - 1], actions[|actions| - 1];
      Times(total, front, a) + if last == a && Enabled(Run(total, front), a) then 1 else 0
  }

  /** Where the worker stands after so many handlers started and ended. */
  ghost predicate Counted(s: System, begun: nat, completed: nat) {
    && completed <= begun && (s.row.status == SUCCEEDED ==> begun == completed == s.total)
    && match s.worker
       case NotStarted => begun == 0 && s.row.status != SUCCEEDED
       case Loading => begun == 0 && s.row.status != SUCCEEDED
       case Checking(k) => k < s.total && begun == completed == k && s.row.status != SUCCEEDED
       case Cleared(k) => k < s.total && begun == completed == k && s.row.status != SUCCEEDED
       case InStep(k) => k < s.total && completed == k && begun == k + 1 && s.row.status != SUCCEEDED
       case TimedOut => begun == completed < s.total && s.row.status != SUCCEEDED
       case Finishing => begun == completed == s.total && s.row.status != SUCCEEDED
       case WrappingUp => begun == completed == s.total
       case _ => begun <= s.total && begun <= completed + 1
  }

  lemma CountedStep(s: System, a: Action, begun: nat, completed: nat)
    requires Counted(s, begun, completed)
    ensures Counted(Step(s, a), begun + if a == Begin && Enabled(s, a) then 1 else 0,
                    completed + if a == Complete && Enabled(s, a) then 1 else 0)
  {
  }

  /** Steps are taken one after the other: where the worker stands says how many handlers have started and ended. */
  lemma {:induction false} StepsAreCounted(total: nat, actions: seq<Action>)
    ensures Counted(Run(total, actions), Times(total, actions, Begin), Times(total, actions, Complete))
  {
    if actions != [] {
      var front := actions[..|actions| - 1];
      StepsAreCounted(total, front);
      CountedStep(Run(total, front), actions[|actions| - 1], Times(total, front, Begin), Times(total, front, Complete));
    }
  }

  /** Whatever the kill does, a session that says SUCCEEDED has had every handler started and completed once. */
  lemma SucceededRanAll(total: nat, actions: seq<Action>)
    requires Run(total, actions).row.status == SUCCEEDED
    ensures Times(total, actions, Begin) == Times(total, actions, Complete) == total
  {
    StepsAreCounted(total, actions);
    TotalKept(total, actions);
  }

  /** A check ends the execution exactly if the session is cancelled or the flag is set; it changes nothing else. */
  lemma CheckMeans(s: System)
    requires s.worker.Checking?
    ensures var t := Step(s, Check);
            && t.row == s.row && t.kill == s.kill
            && t.worker == if s.row.status == CANCELLED || CancellationRequested in s.row.output then Done
                           else Cleared(s.worker.step)
  {
  }

  /** A step whose time is up marks the session failed; the error is then caught, which marks it once more. */
  lemma ExpiryMeans(s: System)
    requires s.worker.Cleared?
    ensures var t := Step(Step(s, Expire), WriteTimeout);
            t.row == Row(FAILED, {ErrorText}) && t.worker == Catching
  {
  }

  /** A caught error marks the session failed unless it is cancelled by then. */
  lemma CaughtMeans(s: System)
    requires s.worker.Catching?
    ensures Step(s, CatchRead).row == s.row
    ensures s.row.status == CANCELLED ==> Step(s, CatchRead).worker.Done?
    ensures s.row.status != CANCELLED ==>
              var t := Step(Step(s, CatchRead), WriteFailed);
              t.row == Row(FAILED, {ErrorText}) && t.worker.Done?
  {
  }

  // ---- The job of a session that never started ----

  /** A kill that finds the job waiting takes it off the queue, and is done. */
  lemma RemovalMeans(s: System)
    requires s.kill.Explained?
    ensures Step(s, KillFindWaiting) == if s.worker.NotStarted? then s.(removed := true, kill := Ended) else s
  {
  }

  /** A removed job never starts: its session stays CANCELLED, whatever happens next. */
  lemma {:induction false} RemovedNeverStarts(total: nat, actions: seq<Action>)
    requires Run(total, actions).removed
    ensures var s := Run(total, actions); s.worker.NotStarted? && s.kill.Ended? && s.row.status == CANCELLED
  {
    if actions != [] {
      var front := actions[..|actions| - 1];
      RunInvariant(total, front);
      if Run(total, front).removed {
        RemovedNeverStarts(total, front);
      }
    }
  }
}
