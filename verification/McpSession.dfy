/**
 Requests of an MCP client and the responses that settle them: the request
 counter, the map of pending requests, and the 30-second timers.
 */
module McpSession {
  import opened Wrappers
  import opened WorkflowNodes

  /** A parsed JSON-RPC message; `id` is present when it is a non-negative integer. */
  datatype Message = Message(id: Option<nat>, error: Option<string>, result: Json, isMethod: bool)

  datatype Outcome = Resolved(result: Json) | RemoteError(text: string) | TimedOut | WriteFailed

  /** `calls` lists every call of a promise's resolve or reject function, in order. */
  datatype Session = Session(
    requestId: nat,
    pending: set<nat>,
    timers: set<nat>,
    calls: seq<(nat, Outcome)>,
    notifications: seq<Message>)

  const FRESH := Session(0, {}, {}, [], [])

  datatype Event =
    | Send(writable: bool)
    | SendSse
    | Incoming(message: Message)
    | Timer(id: nat)
    | Disconnect

  function OutcomeOf(m: Message): Outcome {
    match m.error
    case Some(text) => RemoteError(text)
    case None => Resolved(m.result)
  }

  predicate Matches(s: Session, m: Message) {
    m.id.Some? && m.id.value != 0 && m.id.value in s.pending
  }

  function Handle(s: Session, m: Message): Session {
    if Matches(s, m) then
      s.(pending := s.pending - {m.id.value}, timers := s.timers - {m.id.value},
         calls := s.calls + [(m.id.value, OutcomeOf(m))])
    else if m.isMethod then s.(notifications := s.notifications + [m])
    else s
  }

  /** Sending arms a timer and registers the request before the write, which may throw. */
  function Register(s: Session, writable: bool): Session {
    var id := s.requestId + 1;
    s.(requestId := id, pending := s.pending + {id}, timers := s.timers + {id},
       calls := if writable then s.calls else s.calls + [(id, WriteFailed)])
  }

  function Expire(s: Session, id: nat): Session {
    if id in s.timers then
      s.(pending := s.pending - {id}, timers := s.timers - {id}, calls := s.calls + [(id, TimedOut)])
    else s
  }

  function Step(s: Session, e: Event): Session {
    match e
    case Send(writable) => Register(s, writable)
    case SendSse => s.(requestId := s.requestId + 1)
    case Incoming(m) => Handle(s, m)
    case Timer(id) => Expire(s, id)
    case Disconnect => s.(pending := {})
  }

  function Run(events: seq<Event>): Session {
    if events == [] then FRESH else Step(Run(events[..|events| - 1]), events[|events| - 1])
  }

  /** How many ids the events have given out. */
  function Allocated(events: seq<Event>): nat {
    if events == [] then 0
    else
      var last := events[|events| - 1];
      Allocated(events[..|events| - 1]) + if last.Send? || last.SendSse? then 1 else 0
  }

  /** Event `i` sends the request with id `n` through the pending map. */
  ghost predicate Sends(events: seq<Event>, i: int, n: nat) {
    0 <= i < |events| && events[i].Send? && Allocated(events[..i + 1]) == n
  }

  predicate Ends(e: Event, n: nat) {
    (e.Incoming? && e.message.id == Some(n)) || e == Timer(n) || e.Disconnect?
  }

  /** `n` was sent and nothing since answered it, timed it out or cleared it. */
  ghost predicate Outstanding(events: seq<Event>, n: nat) {
    exists i :: Sends(events, i, n) && forall j :: i < j < |events| ==> !Ends(events[j], n)
  }

  ghost predicate Sent(events: seq<Event>, n: nat) {
    exists i :: Sends(events, i, n)
  }

  ghost predicate Settled(s: Session, n: nat) {
    exists k :: 0 <= k < |s.calls| && s.calls[k].0 == n && !s.calls[k].1.WriteFailed?
  }

  lemma {:induction false} CounterIsAllocated(events: seq<Event>)
    ensures Run(events).requestId == Allocated(events)
  {
    if events != [] {
      CounterIsAllocated(events[..|events| - 1]);
    }
  }

  lemma {:induction false} AllocatedGrows(events: seq<Event>, i: nat)
    requires i <= |events|
    ensures Allocated(events[..i]) <= Allocated(events)
  {
    if i < |events| {
      AllocatedGrows(events[..|events| - 1], i);
      assert events[..|events| - 1][..i] == events[..i];
    } else {
      assert events[..i] == events;
    }
  }

  lemma SendsBefore(events: seq<Event>, i: int, n: nat)
    requires events != []
    ensures i < |events| - 1 ==> (Sends(events, i, n) <==> Sends(events[..|events| - 1], i, n))
  {
    if 0 <= i < |events| - 1 {
      assert events[..|events| - 1][..i + 1] == events[..i + 1];
    }
  }

  lemma SendsLast(events: seq<Event>, n: nat)
    requires events != []
    ensures Sends(events, |events| - 1, n) <==>
            events[|events| - 1].Send? && n == Allocated(events[..|events| - 1]) + 1
  {
    assert events[..|events|] == events;
  }

  lemma SendsOrdered(events: seq<Event>, i: nat, j: nat)
    requires i < j < |events| && events[j].Send?
    ensures Allocated(events[..i + 1]) < Allocated(events[..j + 1])
  {
    AllocatedGrows(events[..j], i + 1);
    assert events[..j][..i + 1] == events[..i + 1];
    assert events[..j + 1][..j] == events[..j];
  }

  /** No id is sent twice, and ids are given out in order. */
  lemma SendsOnce(events: seq<Event>, i: int, j: int, n: nat)
    requires Sends(events, i, n) && Sends(events, j, n)
    ensures i == j
  {
    if i < j {
      SendsOrdered(events, i, j);
    } else if j < i {
      SendsOrdered(events, j, i);
    }
  }

  lemma OutstandingStep(events: seq<Event>, n: nat)
    requires events != []
    ensures Outstanding(events, n) <==>
            || Sends(events, |events| - 1, n)
            || (Outstanding(events[..|events| - 1], n) && !Ends(events[|events| - 1], n))
  {
    var before := events[..|events| - 1];
    if Sends(events, |events| - 1, n) {
      assert Outstanding(events, n);
    }
    if Outstanding(before, n) && !Ends(events[|events| - 1], n) {
      var i :| Sends(before, i, n) && forall j :: i < j < |before| ==> !Ends(before[j], n);
      SendsBefore(events, i, n);
      assert forall j :: i < j < |events| ==> !Ends(events[j], n) by {
        forall j | i < j < |events|
          ensures !Ends(events[j], n)
        {
          if j < |before| {
            assert before[j] == events[j];
          }
        }
      }
    }
    if Outstanding(events, n) && !Sends(events, |events| - 1, n) {
      var i :| Sends(events, i, n) && forall j :: i < j < |events| ==> !Ends(events[j], n);
      SendsBefore(events, i, n);
      assert forall j :: i < j < |before| ==> !Ends(before[j], n);
    }
  }

  lemma PendingStep(before: seq<Event>, e: Event, n: nat)
    requires Run(before).pending <= Run(before).timers
    ensures var s := Step(Run(before), e);
            && s.pending <= s.timers
            && (n in s.pending <==>
                (e.Send? && n == Run(before).requestId + 1) ||
                (n in Run(before).pending && !Ends(e, n)) ||
                (n == 0 && n in Run(before).pending && e.Incoming?))
  {
  }

  /** The pending map is exactly the requests sent and not yet answered, timed out or cleared. */
  lemma {:induction false} PendingIsOutstanding(events: seq<Event>, n: nat)
    ensures n in Run(events).pending <==> Outstanding(events, n)
    ensures Run(events).pending <= Run(events).timers
  {
    if events != [] {
      var before, last := events[..|events| - 1], events[|events| - 1];
      PendingIsOutstanding(before, n);
      CounterIsAllocated(before);
      SendsLast(events, n);
      forall i
        ensures i < |events| - 1 ==> (Sends(events, i, n) <==> Sends(before, i, n))
      {
        SendsBefore(events, i, n);
      }
      PendingStep(before, last, n);
      OutstandingStep(events, n);
    }
  }

  /** The incoming messages that name a method and answer no outstanding request, in order. */
  ghost function Unasked(events: seq<Event>): seq<Message> {
    if events == [] then []
    else
      var before, last := events[..|events| - 1], events[|events| - 1];
      Unasked(before)
      + if last.Incoming? && last.message.isMethod
           && !(last.message.id.Some? && Outstanding(before, last.message.id.value)) then [last.message]
        else []
  }

  lemma {:induction false} ZeroIsNeverPending(events: seq<Event>)
    ensures 0 !in Run(events).pending
  {
    if events != [] {
      ZeroIsNeverPending(events[..|events| - 1]);
    }
  }

  /** Only such messages are handed on as notifications, each once. */
  lemma {:induction false} NotificationsMean(events: seq<Event>)
    ensures Run(events).notifications == Unasked(events)
  {
    if events != [] {
      var before, last := events[..|events| - 1], events[|events| - 1];
      NotificationsMean(before);
      ZeroIsNeverPending(before);
      if last.Incoming? && last.message.id.Some? {
        PendingIsOutstanding(before, last.message.id.value);
      }
    }
  }

  /** What every run keeps about timers and settle calls. */
  ghost predicate Accounted(s: Session) {
    && s.pending <= s.timers
    && (forall id :: id in s.timers ==> 1 <= id <= s.requestId && !Settled(s, id))
    && (forall k :: 0 <= k < |s.calls| ==> 1 <= s.calls[k].0 <= s.requestId)
    && (forall p, q :: 0 <= p < q < |s.calls| && s.calls[p].0 == s.calls[q].0 ==> s.calls[p].1.WriteFailed?)
  }

  lemma SettledAfterCall(s: Session, t: Session, id: nat, outcome: Outcome, n: nat)
    requires t.calls == s.calls + [(id, outcome)]
    ensures Settled(t, n) <==> Settled(s, n) || (n == id && !outcome.WriteFailed?)
  {
    var last := |s.calls|;
    assert t.calls[last] == (id, outcome);
    if Settled(s, n) {
      var k :| 0 <= k < |s.calls| && s.calls[k].0 == n && !s.calls[k].1.WriteFailed?;
      assert t.calls[k] == s.calls[k];
    }
    if Settled(t, n) {
      var k :| 0 <= k < |t.calls| && t.calls[k].0 == n && !t.calls[k].1.WriteFailed?;
      assert k < last ==> t.calls[k] == s.calls[k];
    }
  }

  lemma AccountedAfterCall(s: Session, t: Session, id: nat, outcome: Outcome)
    requires Accounted(s) && t.calls == s.calls + [(id, outcome)]
    requires t.pending <= t.timers && t.requestId >= s.requestId && 1 <= id <= t.requestId
    requires (id in s.timers && t.timers == s.timers - {id} && !outcome.WriteFailed?)
          || (id > s.requestId && t.timers == s.timers + {id} && outcome.WriteFailed?)
    ensures Accounted(t)
  {
    forall n
      ensures Settled(t, n) <==> Settled(s, n) || (n == id && !outcome.WriteFailed?)
    {
      SettledAfterCall(s, t, id, outcome, n);
    }
    forall p | 0 <= p < |s.calls| && s.calls[p].0 == id
      ensures s.calls[p].1.WriteFailed?
    {
      if id in s.timers && !s.calls[p].1.WriteFailed? {
        assert Settled(s, id);
      }
    }
  }

  lemma AccountedStep(s: Session, e: Event)
    requires Accounted(s)
    ensures Accounted(Step(s, e))
  {
    var t := Step(s, e);
    if e.Send? && !e.writable {
      AccountedAfterCall(s, t, t.requestId, WriteFailed);
    } else if e.Incoming? && Matches(s, e.message) {
      AccountedAfterCall(s, t, e.message.id.value, OutcomeOf(e.message));
    } else if e.Timer? && e.id in s.timers {
      AccountedAfterCall(s, t, e.id, TimedOut);
    } else {
      assert t.calls == s.calls;
      assert forall n :: Settled(t, n) ==> Settled(s, n);
      assert forall k :: 0 <= k < |s.calls| ==> s.calls[k].0 != s.requestId + 1;
    }
  }

  lemma {:induction false} RunAccounted(events: seq<Event>)
    ensures Accounted(Run(events))
  {
    if events != [] {
      RunAccounted(events[..|events| - 1]);
      AccountedStep(Run(events[..|events| - 1]), events[|events| - 1]);
    }
  }

  lemma {:induction false} CallsOfFailedWrites(events: seq<Event>, p: nat, q: nat)
    requires p < q < |Run(events).calls|
    requires Run(events).calls[p].0 == Run(events).calls[q].0
    ensures !Run(events).calls[q].1.WriteFailed?
  {
    if events != [] {
      var s := Run(events[..|events| - 1]);
      RunAccounted(events[..|events| - 1]);
      if q < |s.calls| {
        CallsOfFailedWrites(events[..|events| - 1], p, q);
      } else {
        assert s.calls[p].0 <= s.requestId;
      }
    }
  }

  ghost predicate Causes(events: seq<Event>, i: nat, id: nat, outcome: Outcome)
    requires i < |events|
  {
    match outcome
    case TimedOut => events[i] == Timer(id)
    case WriteFailed => Sends(events, i, id) && !events[i].writable
    case RemoteError(text) =>
      events[i].Incoming? && events[i].message.id == Some(id) && events[i].message.error == Some(text)
    case Resolved(result) =>
      && events[i].Incoming? && events[i].message.id == Some(id)
      && events[i].message.error == None && events[i].message.result == result
  }

  /** A response settles only the request with its id: one with an error rejects, any other resolves with its result.
      Timeouts and write failures are the request's own. */
  ghost predicate HasCause(events: seq<Event>, id: nat, outcome: Outcome) {
    exists i :: 0 <= i < |events| && Causes(events, i, id, outcome)
  }

  lemma {:induction false} CallHasCause(events: seq<Event>, k: nat)
    requires k < |Run(events).calls|
    ensures HasCause(events, Run(events).calls[k].0, Run(events).calls[k].1)
  {
    if events != [] {
      var before, last := events[..|events| - 1], |events| - 1;
      var (id, outcome) := Run(events).calls[k];
      if k < |Run(before).calls| {
        CallHasCause(before, k);
        var i :| 0 <= i < |before| && Causes(before, i, id, outcome);
        SendsBefore(events, i, id);
        assert Causes(events, i, id, outcome);
      } else {
        CounterIsAllocated(before);
        SendsLast(events, id);
        assert Causes(events, last, id, outcome);
      }
    }
  }

  /** A promise is settled at most once, unless its own write threw before its timer or an answer came. */
  lemma SettledAtMostOnce(events: seq<Event>, p: nat, q: nat)
    requires p < q < |Run(events).calls| && Run(events).calls[p].0 == Run(events).calls[q].0
    ensures Run(events).calls[p].1 == WriteFailed && !Run(events).calls[q].1.WriteFailed?
    ensures exists i :: Sends(events, i, Run(events).calls[p].0) && !events[i].writable
  {
    RunAccounted(events);
    CallHasCause(events, p);
    if Run(events).calls[q].1.WriteFailed? {
      CallsOfFailedWrites(events, p, q);
    }
  }

  lemma SentStep(events: seq<Event>, n: nat)
    requires events != []
    ensures Sent(events, n) <==> Sent(events[..|events| - 1], n) || Sends(events, |events| - 1, n)
  {
    forall i
      ensures i < |events| - 1 ==> (Sends(events, i, n) <==> Sends(events[..|events| - 1], i, n))
    {
      SendsBefore(events, i, n);
    }
    if Sent(events[..|events| - 1], n) {
      var i :| Sends(events[..|events| - 1], i, n);
      assert Sends(events, i, n);
    }
  }

  /** Conservation: every request sent is either still timed or settled, never both and never lost. */
  lemma {:induction false} SentIsTimedOrSettled(events: seq<Event>, n: nat)
    ensures Sent(events, n) <==> n in Run(events).timers || Settled(Run(events), n)
    ensures !(n in Run(events).timers && Settled(Run(events), n))
  {
    RunAccounted(events);
    if events != [] {
      var before, last := events[..|events| - 1], events[|events| - 1];
      var s, t := Run(before), Run(events);
      SentIsTimedOrSettled(before, n);
      RunAccounted(before);
      SentStep(events, n);
      CounterIsAllocated(before);
      SendsLast(events, n);
      if last.Send? && !last.writable {
        SettledAfterCall(s, t, t.requestId, WriteFailed, n);
      } else if last.Incoming? && Matches(s, last.message) {
        SettledAfterCall(s, t, last.message.id.value, OutcomeOf(last.message), n);
      } else if last.Timer? && last.id in s.timers {
        SettledAfterCall(s, t, last.id, TimedOut, n);
      } else {
        assert t.calls == s.calls;
        assert Settled(t, n) <==> Settled(s, n);
      }
    }
  }

  // ---- Settled by which events ----

  ghost predicate Connected(events: seq<Event>, i: int, j: int)
    requires 0 <= i && j <= |events|
  {
    forall k :: i < k < j ==> !events[k].Disconnect?
  }

  /** Event `j` is the timer of the request sent at `i`, or a message with its id that no disconnect precedes. */
  ghost predicate Reaches(events: seq<Event>, i: int, j: int, n: nat) {
    && 0 <= i < j < |events|
    && (events[j] == Timer(n)
        || (events[j].Incoming? && events[j].message.id == Some(n) && Connected(events, i, j)))
  }

  ghost predicate SentAndReached(events: seq<Event>, n: nat) {
    exists i, j :: Sends(events, i, n) && Reaches(events, i, j, n)
  }

  lemma ConnectedBefore(events: seq<Event>, i: int, j: int)
    requires 0 <= i < j < |events|
    ensures Connected(events[..|events| - 1], i, j) <==> Connected(events, i, j)
  {
    forall k | i < k < j
      ensures events[..|events| - 1][k] == events[k]
    {
    }
  }

  lemma ReachesBefore(events: seq<Event>, i: int, j: int, n: nat)
    requires events != [] && j < |events| - 1
    ensures Reaches(events, i, j, n) <==> Reaches(events[..|events| - 1], i, j, n)
  {
    if 0 <= i < j {
      ConnectedBefore(events, i, j);
    }
  }

  ghost predicate ReachedLast(before: seq<Event>, events: seq<Event>, n: nat) {
    exists i :: Sends(before, i, n) && Reaches(events, i, |before|, n)
  }

  /** The last event adds at most that the request it concerns is reached now. */
  lemma ReachedStep(events: seq<Event>, n: nat)
    requires events != []
    ensures SentAndReached(events, n) <==>
            || SentAndReached(events[..|events| - 1], n)
            || ReachedLast(events[..|events| - 1], events, n)
  {
    var before := events[..|events| - 1];
    if i, j :| Sends(events, i, n) && Reaches(events, i, j, n) {
      SendsBefore(events, i, n);
      if j < |events| - 1 {
        ReachesBefore(events, i, j, n);
      }
    }
    if i, j :| Sends(before, i, n) && Reaches(before, i, j, n) {
      SendsBefore(events, i, n);
      ReachesBefore(events, i, j, n);
    }
    if i :| Sends(before, i, n) && Reaches(events, i, |events| - 1, n) {
      SendsBefore(events, i, n);
    }
  }

  /** A request that no disconnect has cleared is pending until something reaches it. */
  lemma PendingUnlessReached(events: seq<Event>, i: int, n: nat)
    requires Sends(events, i, n) && Connected(events, i, |events|)
    ensures n in Run(events).pending || SentAndReached(events, n)
  {
    PendingIsOutstanding(events, n);
    if !Outstanding(events, n) {
      var j :| i < j < |events| && Ends(events[j], n);
      assert Reaches(events, i, j, n);
    }
  }

  lemma SettlesNow(before: seq<Event>, e: Event, n: nat)
    ensures Settled(Step(Run(before), e), n) <==>
            || Settled(Run(before), n)
            || (e == Timer(n) && n in Run(before).timers)
            || (e.Incoming? && e.message.id == Some(n) && n != 0 && n in Run(before).pending)
  {
    var s, t := Run(before), Step(Run(before), e);
    if e.Send? && !e.writable {
      SettledAfterCall(s, t, t.requestId, WriteFailed, n);
    } else if e.Incoming? && Matches(s, e.message) {
      SettledAfterCall(s, t, e.message.id.value, OutcomeOf(e.message), n);
    } else if e.Timer? && e.id in s.timers {
      SettledAfterCall(s, t, e.id, TimedOut, n);
    } else {
      assert t.calls == s.calls;
      assert Settled(t, n) <==> Settled(s, n);
    }
  }

  lemma ReachedNow(events: seq<Event>, n: nat)
    requires events != [] && !SentAndReached(events[..|events| - 1], n)
    requires Sent(events[..|events| - 1], n) <==> n in Run(events[..|events| - 1]).timers
    requires n in Run(events[..|events| - 1]).pending <==> Outstanding(events[..|events| - 1], n)
    ensures ReachedLast(events[..|events| - 1], events, n) <==>
            || (events[|events| - 1] == Timer(n) && n in Run(events[..|events| - 1]).timers)
            || (events[|events| - 1].Incoming? && events[|events| - 1].message.id == Some(n)
                && n in Run(events[..|events| - 1]).pending)
  {
    var before, last := events[..|events| - 1], |events| - 1;
    if i :| Sends(before, i, n) && Reaches(events, i, last, n) {
      if events[last] != Timer(n) {
        ConnectedBefore(events, i, last);
        PendingUnlessReached(before, i, n);
      }
    }
    if n in Run(before).pending {
      var i :| Sends(before, i, n) && forall j :: i < j < |before| ==> !Ends(before[j], n);
      ConnectedBefore(events, i, last);
      assert events[last].Incoming? && events[last].message.id == Some(n) ==> Reaches(events, i, last, n);
    }
    if events[last] == Timer(n) && n in Run(before).timers {
      var i :| Sends(before, i, n);
      assert Reaches(events, i, last, n);
    }
  }

  /** A request is answered or timed out exactly when an event after its own reaches it. */
  lemma {:induction false} SettledIffReached(events: seq<Event>, n: nat)
    ensures Settled(Run(events), n) <==> SentAndReached(events, n)
  {
    if events != [] {
      var before, e := events[..|events| - 1], events[|events| - 1];
      SettledIffReached(before, n);
      SettlesNow(before, e, n);
      ReachedStep(events, n);
      SentIsTimedOrSettled(before, n);
      PendingIsOutstanding(before, n);
      RunAccounted(before);
      if !SentAndReached(before, n) {
        ReachedNow(events, n);
      }
    }
  }

  // ---- Settled twice ----

  ghost predicate SettledTwice(events: seq<Event>) {
    exists p, q :: 0 <= p < q < |Run(events).calls| && Run(events).calls[p].0 == Run(events).calls[q].0
  }

  lemma {:induction false} FailedSendIsCalled(events: seq<Event>, i: nat, n: nat)
    requires Sends(events, i, n) && !events[i].writable
    ensures (n, WriteFailed) in Run(events).calls
  {
    if i == |events| - 1 {
      CounterIsAllocated(events[..i]);
      SendsLast(events, n);
      assert Run(events).calls[|Run(events).calls| - 1] == (n, WriteFailed);
    } else {
      var before := events[..|events| - 1];
      SendsBefore(events, i, n);
      FailedSendIsCalled(before, i, n);
      var k :| 0 <= k < |Run(before).calls| && Run(before).calls[k] == (n, WriteFailed);
      assert Run(events).calls[k] == (n, WriteFailed);
    }
  }

  /** The write at event `i` throws, and event `j` is its request's timer or a message that still finds it. */
  ghost predicate FailsAndIsReached(events: seq<Event>, i: int, j: int, n: nat) {
    Sends(events, i, n) && !events[i].writable && Reaches(events, i, j, n)
  }

  /** A promise is settled twice exactly when a request whose write threw is later answered or timed out. */
  lemma SettledTwiceIff(events: seq<Event>)
    ensures SettledTwice(events) <==> exists n, i, j :: FailsAndIsReached(events, i, j, n)
  {
    var calls := Run(events).calls;
    if SettledTwice(events) {
      var p, q :| 0 <= p < q < |calls| && calls[p].0 == calls[q].0;
      var n := calls[p].0;
      SettledAtMostOnce(events, p, q);
      assert Settled(Run(events), n);
      SettledIffReached(events, n);
      var i, j :| Sends(events, i, n) && Reaches(events, i, j, n);
      var k :| Sends(events, k, n) && !events[k].writable;
      SendsOnce(events, i, k, n);
      assert FailsAndIsReached(events, i, j, n);
    }
    if n, i, j :| FailsAndIsReached(events, i, j, n) {
      SettledIffReached(events, n);
      FailedSendIsCalled(events, i, n);
      var p :| 0 <= p < |calls| && calls[p] == (n, WriteFailed);
      var q :| 0 <= q < |calls| && calls[q].0 == n && !calls[q].1.WriteFailed?;
      assert p != q;
    }
  }

  /** It does happen: the connection is gone when the request is written, and its timer still fires. */
  lemma SettledTwiceExample()
    ensures SettledTwice([Send(false), Timer(1)])
    ensures Run([Send(false), Timer(1)]).calls == [(1, WriteFailed), (1, TimedOut)]
  {
    var events := [Send(false), Timer(1)];
    assert events[..1] == [Send(false)] && [Send(false)][..0] == [];
    assert Run([Send(false)]) == Register(FRESH, false);
    var calls := Run(events).calls;
    assert calls[0].0 == calls[1].0;
  }
}
