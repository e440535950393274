/** What becomes of a publication and of an entry handed out, told on the events themselves. */
module MessageBusArrivals {
  import opened BusWire
  import opened MessageBus
  import opened MessageBusRuns

  // ---- Publications ----

  /** Event number `i` stores the message. */
  ghost predicate StoredAt(events: seq<Event>, i: nat, m: Message) {
    i < |events| && events[i] == Store(m) && forall n :: n in Run(EMPTY, events[..i]).store ==> n.id != m.id
  }

  predicate Leaves(e: Event, m: Message) {
    e == Append(m) || e == Lose(m)
  }

  /** Stored, and neither appended nor given up since. */
  ghost predicate OnItsWay(events: seq<Event>, m: Message) {
    exists i: nat :: StoredAt(events, i, m) && forall j :: i < j < |events| ==> !Leaves(events[j], m)
  }

  ghost predicate AppendedAt(events: seq<Event>, j: nat, m: Message) {
    j < |events| && events[j] == Append(m) && OnItsWay(events[..j], m)
  }

  lemma StoredBefore(events: seq<Event>, m: Message)
    requires events != []
    ensures forall i: nat :: i < |events| - 1 ==> (StoredAt(events, i, m) <==> StoredAt(events[..|events| - 1], i, m))
  {
    var front := events[..|events| - 1];
    forall i: nat | i < |events| - 1
      ensures StoredAt(events, i, m) <==> StoredAt(front, i, m)
    {
      assert front[..i] == events[..i];
    }
  }

  lemma OnItsWayStep(events: seq<Event>, m: Message)
    requires events != []
    ensures var n := |events| - 1;
            OnItsWay(events, m) <==> StoredAt(events, n, m) || (OnItsWay(events[..n], m) && !Leaves(events[n], m))
  {
    var n := |events| - 1;
    var front := events[..n];
    StoredBefore(events, m);
    if OnItsWay(front, m) && !Leaves(events[n], m) {
      var i: nat :| StoredAt(front, i, m) && forall j :: i < j < n ==> !Leaves(front[j], m);
      assert forall j :: i < j < n ==> front[j] == events[j];
      assert StoredAt(events, i, m);
    }
    if OnItsWay(events, m) && !StoredAt(events, n, m) {
      var i: nat :| StoredAt(events, i, m) && forall j :: i < j < |events| ==> !Leaves(events[j], m);
      assert StoredAt(front, i, m);
    }
  }

  lemma PublishingStep(s: System, e: Event, m: Message)
    ensures m in Step(s, e).publishing
            <==> (e == Store(m) && forall n :: n in s.store ==> n.id != m.id) || (m in s.publishing && !Leaves(e, m))
  {
  }

  /** A message is still being published exactly if it was stored and neither appended nor given up since. */
  lemma {:induction false} PublishingIsOnItsWay(events: seq<Event>, m: Message)
    ensures m in Run(EMPTY, events).publishing <==> OnItsWay(events, m)
  {
    if events != [] {
      var n := |events| - 1;
      PublishingIsOnItsWay(events[..n], m);
      PublishingStep(Run(EMPTY, events[..n]), events[n], m);
      OnItsWayStep(events, m);
    }
  }

  lemma AppendedBefore(events: seq<Event>, m: Message)
    requires events != []
    ensures forall j: nat :: j < |events| - 1 ==>
              (AppendedAt(events, j, m) <==> AppendedAt(events[..|events| - 1], j, m))
  {
    var front := events[..|events| - 1];
    forall j: nat | j < |events| - 1
      ensures AppendedAt(events, j, m) <==> AppendedAt(front, j, m)
    {
      assert front[..j] == events[..j];
    }
  }

  lemma StreamStep(s: System, e: Event, m: Message)
    ensures var key := StreamKey(m.tenant);
            m in StreamOf(Step(s, e), key) <==> m in StreamOf(s, key) || (e == Append(m) && m in s.publishing)
  {
    var key := StreamKey(m.tenant);
    if e.Append? && e.message in s.publishing {
      var other := StreamKey(e.message.tenant);
      assert StreamOf(Step(s, e), other) == StreamOf(s, other) + [e.message];
    }
  }

  /** A message is in its tenant's stream exactly if it was appended while it was on its way. */
  lemma {:induction false} ArrivesIffAppended(events: seq<Event>, m: Message)
    ensures m in StreamOf(Run(EMPTY, events), StreamKey(m.tenant)) <==> exists j: nat :: AppendedAt(events, j, m)
  {
    if events != [] {
      var n := |events| - 1;
      var front := events[..n];
      ArrivesIffAppended(front, m);
      StreamStep(Run(EMPTY, front), events[n], m);
      PublishingIsOnItsWay(front, m);
      AppendedBefore(events, m);
      assert AppendedAt(events, n, m) <==> events[n] == Append(m) && OnItsWay(front, m);
      assert forall j: nat :: AppendedAt(front, j, m) ==> AppendedAt(events, j, m);
      assert forall j: nat :: AppendedAt(events, j, m) && j < n ==> AppendedAt(front, j, m);
    }
  }

  // ---- Entries ----

  function CallsOf(c: string, outcome: Outcome): seq<Event> {
    match outcome
    case HandlerThrows => [Handle(c, false)]
    case AckThrows => [Handle(c, true), Acknowledge(c, false)]
    case Succeeds => [Handle(c, true), Acknowledge(c, true)]
  }

  /** A handler that throws moves the consumer on; one that returns has the entry acknowledged first. */
  lemma HandleMeans(s: System, c: string, ok: bool)
    requires Enabled(s, Handle(c, ok))
    ensures var w, t := s.consumers[c], Step(s, Handle(c, ok));
            var g := s.groups[w.group];
            && t.consumers == s.consumers[c := if ok then w.(acking := true) else w.(next := w.next + 1)]
            && t.groups == s.groups[w.group := if ok then g.(succeeded := g.succeeded + {w.next}) else g]
  {
  }

  lemma AcknowledgeMeans(s: System, c: string, ok: bool)
    requires Enabled(s, Acknowledge(c, ok))
    ensures var w, t := s.consumers[c], Step(s, Acknowledge(c, ok));
            var g := s.groups[w.group];
            var acked := if ok then {w.next} else {};
            && t.consumers == s.consumers[c := w.(next := w.next + 1, acking := false)]
            && t.groups == s.groups[w.group := g.(pending := g.pending - acked, acked := g.acked + acked)]
  {
    var g := s.groups[s.consumers[c].group];
    assert g.pending - {} == g.pending && g.acked + {} == g.acked;
  }

  lemma RunsCalls(s: System, c: string, outcome: Outcome)
    ensures Run(s, CallsOf(c, outcome))
            == if outcome == HandlerThrows then Step(s, Handle(c, false))
               else Step(Step(s, Handle(c, true)), Acknowledge(c, outcome == Succeeds))
  {
    if outcome == HandlerThrows {
      assert [Handle(c, false)][..0] == [];
      assert Run(s, []) == s;
    } else {
      TwoSteps(s, Handle(c, true), Acknowledge(c, outcome == Succeeds));
    }
  }

  /** The group after an entry was worked on. */
  ghost predicate Fared(g: Group, h: Group, i: nat, outcome: Outcome) {
    && h.succeeded == g.succeeded + (if outcome == HandlerThrows then {} else {i})
    && h.acked == g.acked + (if outcome == Succeeds then {i} else {})
    && h.pending == g.pending - (if outcome == Succeeds then {i} else {})
    && h.delivered == g.delivered && h.cursor == g.cursor && h.start == g.start
  }

  /** However an entry fares the consumer goes on to the next; it leaves the pending list only by an acknowledgement. */
  lemma EntryMeans(s: System, c: string, outcome: Outcome)
    requires Busy(s, c) && !s.consumers[c].acking && s.consumers[c].group in s.groups
    ensures var w, t := s.consumers[c], Run(s, CallsOf(c, outcome));
            && t.consumers == s.consumers[c := w.(next := w.next + 1)]
            && w.group in t.groups && Fared(s.groups[w.group], t.groups[w.group], w.next, outcome)
  {
    RunsCalls(s, c, outcome);
    HandleMeans(s, c, outcome != HandlerThrows);
    if outcome != HandlerThrows {
      AcknowledgeMeans(Step(s, Handle(c, true)), c, outcome == Succeeds);
    }
  }

  lemma HandedOut(g: Group, count: nat, i: nat)
    ensures i in HandOut(g, count).pending <==> i in g.pending || g.cursor <= i < g.cursor + count
  {
    var range := Range(g.cursor, g.cursor + count);
    if g.cursor <= i < g.cursor + count {
      assert range[i - g.cursor] == i;
    }
  }

  /** A turn of the loop hands out the next entries, as many as there are and as the batch allows, and no others. */
  lemma PolledMeans(g: Group, length: nat, batchSize: nat, outcome: nat -> Outcome)
    requires g.cursor <= length
    ensures var p := Polled(g, length, batchSize, outcome);
            && g.cursor <= p.cursor <= length && p.cursor <= g.cursor + batchSize
            && (p.cursor == length || p.cursor == g.cursor + batchSize)
            && p.delivered == g.delivered + Range(g.cursor, p.cursor)
            && (forall i :: i in p.acked <==> i in g.acked || (g.cursor <= i < p.cursor && outcome(i) == Succeeds))
            && (forall i :: i in p.pending
                            <==> (i in g.pending || g.cursor <= i < p.cursor)
                                 && !(g.cursor <= i < p.cursor && outcome(i) == Succeeds))
  {
    var count := Batch(length - g.cursor, batchSize);
    forall i: nat
      ensures i in HandOut(g, count).pending <==> i in g.pending || g.cursor <= i < g.cursor + count
    {
      HandedOut(g, count, i);
    }
    WorkedMeans(HandOut(g, count), g.cursor, g.cursor + count, outcome);
  }
}
