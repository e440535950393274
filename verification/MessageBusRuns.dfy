/** Whole runs of the bus: what reaches a stream, what a group gets, and what replay covers. */
module MessageBusRuns {
  import opened Wrappers
  import opened Sequences
  import opened BusWire
  import opened MessageBus

  // ---- Publishing ----

  ghost predicate StreamSound(s: System, key: string, entries: seq<Message>) {
    && Distinct(entries)
    && forall m :: m in entries ==> m in s.store && m !in s.publishing && StreamKey(m.tenant) == key
  }

  /** Rows have their own ids; a stream holds stored messages of its own tenant, each once, none still on its way. */
  ghost predicate PublishedSound(s: System) {
    && (forall i, j :: 0 <= i < j < |s.store| ==> s.store[i].id != s.store[j].id)
    && (forall m :: m in s.publishing ==> m in s.store)
    && (forall key :: key in s.streams ==> StreamSound(s, key, s.streams[key]))
  }

  lemma AppendSound(s: System, m: Message, key: string)
    requires PublishedSound(s) && m in s.publishing && key in Step(s, Append(m)).streams
    ensures StreamSound(Step(s, Append(m)), key, Step(s, Append(m)).streams[key])
  {
    if key in s.streams {
      assert StreamSound(s, key, s.streams[key]);
    }
  }

  lemma PublishedStep(s: System, e: Event)
    requires PublishedSound(s)
    ensures PublishedSound(Step(s, e))
  {
    var t := Step(s, e);
    if Enabled(s, e) {
      match e
      case Store(m) =>
        assert forall n :: n in s.store ==> n in t.store;
        forall key | key in s.streams
          ensures StreamSound(t, key, s.streams[key])
        {
        }
      case Append(m) =>
        forall key | key in t.streams
          ensures StreamSound(t, key, t.streams[key])
        {
          AppendSound(s, m, key);
        }
      case Lose(m) =>
        forall key | key in s.streams
          ensures StreamSound(t, key, s.streams[key])
        {
        }
      case _ =>
        forall key | key in s.streams
          ensures StreamSound(t, key, s.streams[key])
        {
        }
    }
  }

  // ---- Groups ----

  ghost predicate GroupSound(g: Group, length: nat) {
    && g.start <= g.cursor <= length
    && g.delivered == Range(g.start, g.cursor)
    && g.pending !! g.acked
    && (forall i :: i in g.pending || i in g.acked <==> g.start <= i < g.cursor)
    && g.acked <= g.succeeded
    && (forall i :: i in g.succeeded ==> g.start <= i < g.cursor)
  }

  ghost predicate GroupsSound(s: System) {
    forall id :: id in s.groups ==> GroupSound(s.groups[id], |StreamOf(s, id.key)|)
  }

  /** What a consumer still has in hand is pending; it acknowledges only what its handler accepted. */
  ghost predicate InHand(g: Group, w: Consumer) {
    && w.next <= w.end <= g.cursor
    && (forall i :: w.next <= i < w.end ==> i in g.pending)
    && (w.acking ==> w.next in g.succeeded)
  }

  /** No two consumers of a group have the same entry in hand. */
  predicate Apart(v: Consumer, w: Consumer) {
    v.group == w.group ==> v.end <= w.next || w.end <= v.next || v.next >= v.end || w.next >= w.end
  }

  ghost predicate ConsumersSound(s: System) {
    && (forall c :: c in s.consumers ==> s.consumers[c].group in s.groups
                                         && InHand(s.groups[s.consumers[c].group], s.consumers[c]))
    && (forall c, d {:trigger s.consumers[c], s.consumers[d]} ::
          c in s.consumers && d in s.consumers && c != d ==> Apart(s.consumers[c], s.consumers[d]))
  }

  lemma HandOutSound(g: Group, length: nat, count: nat, w: Consumer)
    requires GroupSound(g, length) && g.cursor + count <= length
    ensures GroupSound(HandOut(g, count), length)
    ensures InHand(g, w) ==> InHand(HandOut(g, count), w)
    ensures w.next == g.cursor && w.end == g.cursor + count && !w.acking ==> InHand(HandOut(g, count), w)
  {
    var range := Range(g.cursor, g.cursor + count);
    forall i
      ensures i in range <==> g.cursor <= i < g.cursor + count
    {
      assert g.cursor <= i < g.cursor + count ==> range[i - g.cursor] == i;
    }
    assert g.delivered + range == Range(g.start, g.cursor + count);
  }

  lemma AcceptSound(g: Group, length: nat, w: Consumer)
    requires GroupSound(g, length) && InHand(g, w) && w.next < w.end
    ensures GroupSound(g.(succeeded := g.succeeded + {w.next}), length)
  {
  }

  lemma AckSound(g: Group, length: nat, w: Consumer)
    requires GroupSound(g, length) && InHand(g, w) && w.next < w.end && w.acking
    ensures GroupSound(g.(pending := g.pending - {w.next}, acked := g.acked + {w.next}), length)
  {
  }

  lemma StreamsGrow(s: System, e: Event, key: string)
    ensures StreamOf(s, key) <= StreamOf(Step(s, e), key)
  {
  }

  lemma GroupStep(s: System, e: Event, id: GroupId)
    requires GroupsSound(s) && ConsumersSound(s) && Enabled(s, e) && id in Step(s, e).groups
    ensures GroupSound(Step(s, e).groups[id], |StreamOf(s, id.key)|)
  {
    match e
    case Read(_, group, count) =>
      if group == id {
        HandOutSound(s.groups[id], |StreamOf(s, id.key)|, count, Consumer(id, 0, 0, false));
      }
    case Handle(c, ok) =>
      if ok && s.consumers[c].group == id {
        AcceptSound(s.groups[id], |StreamOf(s, id.key)|, s.consumers[c]);
      }
    case Acknowledge(c, ok) =>
      if ok && s.consumers[c].group == id {
        AckSound(s.groups[id], |StreamOf(s, id.key)|, s.consumers[c]);
      }
    case _ =>
  }

  lemma GroupsStep(s: System, e: Event)
    requires GroupsSound(s) && ConsumersSound(s)
    ensures GroupsSound(Step(s, e))
  {
    if Enabled(s, e) {
      forall id | id in Step(s, e).groups
        ensures GroupSound(Step(s, e).groups[id], |StreamOf(Step(s, e), id.key)|)
      {
        StreamsGrow(s, e, id.key);
        GroupStep(s, e, id);
      }
    }
  }

  lemma HandOutKeeps(s: System, e: Event, c: string)
    requires GroupsSound(s) && ConsumersSound(s) && e.Read? && Enabled(s, e) && c in Step(s, e).consumers
    ensures var t := Step(s, e);
            t.consumers[c].group in t.groups && InHand(t.groups[t.consumers[c].group], t.consumers[c])
  {
    HandOutSound(s.groups[e.group], |StreamOf(s, e.group.key)|, e.count, Step(s, e).consumers[c]);
  }

  lemma AckKeeps(s: System, e: Event, c: string)
    requires GroupsSound(s) && ConsumersSound(s) && e.Acknowledge? && Enabled(s, e) && c in Step(s, e).consumers
    ensures var t := Step(s, e);
            t.consumers[c].group in t.groups && InHand(t.groups[t.consumers[c].group], t.consumers[c])
  {
    assert c != e.consumer ==> Apart(s.consumers[c], s.consumers[e.consumer]);
  }

  lemma ConsumerStep(s: System, e: Event, c: string)
    requires GroupsSound(s) && ConsumersSound(s) && Enabled(s, e) && c in Step(s, e).consumers
    ensures var t := Step(s, e);
            t.consumers[c].group in t.groups && InHand(t.groups[t.consumers[c].group], t.consumers[c])
  {
    match e
    case Read(_, group, count) => HandOutKeeps(s, e, c);
    case Acknowledge(d, _) => AckKeeps(s, e, c);
    case _ =>
  }

  /** A consumer that goes on with what it has in hand. */
  predicate GoesOn(before: Consumer, after: Consumer) {
    after.group == before.group && after.end == before.end && after.next >= before.next
  }

  lemma GoesOnUnlessReads(s: System, e: Event, c: string)
    requires Enabled(s, e) && c in Step(s, e).consumers && !(e.Read? && e.consumer == c)
    ensures c in s.consumers && GoesOn(s.consumers[c], Step(s, e).consumers[c])
  {
  }

  /** What is handed out lies behind everything handed out before. */
  lemma ReadsBehind(s: System, e: Event, d: string)
    requires ConsumersSound(s) && Enabled(s, e) && e.Read? && d in s.consumers
    ensures Apart(Step(s, e).consumers[e.consumer], s.consumers[d])
  {
    var w := s.consumers[d];
    assert InHand(s.groups[w.group], w);
  }

  lemma ApartStep(s: System, e: Event, c: string, d: string)
    requires ConsumersSound(s) && Enabled(s, e) && c != d
    requires c in Step(s, e).consumers && d in Step(s, e).consumers
    ensures Apart(Step(s, e).consumers[c], Step(s, e).consumers[d])
  {
    if e.Read? && e.consumer == c {
      GoesOnUnlessReads(s, e, d);
      ReadsBehind(s, e, d);
    } else if e.Read? && e.consumer == d {
      GoesOnUnlessReads(s, e, c);
      ReadsBehind(s, e, c);
    } else {
      GoesOnUnlessReads(s, e, c);
      GoesOnUnlessReads(s, e, d);
      assert Apart(s.consumers[c], s.consumers[d]);
    }
  }

  lemma ConsumersStep(s: System, e: Event)
    requires GroupsSound(s) && ConsumersSound(s)
    ensures ConsumersSound(Step(s, e))
  {
    if Enabled(s, e) {
      var t := Step(s, e);
      forall c | c in t.consumers
        ensures t.consumers[c].group in t.groups && InHand(t.groups[t.consumers[c].group], t.consumers[c])
      {
        ConsumerStep(s, e, c);
      }
      forall c, d | c in t.consumers && d in t.consumers && c != d
        ensures Apart(t.consumers[c], t.consumers[d])
      {
        ApartStep(s, e, c, d);
      }
    }
  }

  ghost predicate Sound(s: System) {
    PublishedSound(s) && GroupsSound(s) && ConsumersSound(s)
  }

  lemma SoundStep(s: System, e: Event)
    requires Sound(s)
    ensures Sound(Step(s, e))
  {
    PublishedStep(s, e);
    GroupsStep(s, e);
    ConsumersStep(s, e);
  }

  /** In every interleaving of publishers and consumers, with deaths anywhere, all of this holds. */
  lemma {:induction false} RunSound(events: seq<Event>)
    ensures Sound(Run(EMPTY, events))
  {
    if events != [] {
      RunSound(events[..|events| - 1]);
      SoundStep(Run(EMPTY, events[..|events| - 1]), events[|events| - 1]);
    }
  }

  /** Event `j` creates the group, which starts at the beginning of its stream, or else at the end as it is then. */
  ghost predicate CreatedAt(events: seq<Event>, id: GroupId, j: int, start: nat) {
    && 0 <= j < |events| && events[j].Create? && events[j].group == id
    && var s := Run(EMPTY, events[..j]);
       id !in s.groups && start == if events[j].fromStart then 0 else |StreamOf(s, id.key)|
  }

  lemma StartStays(s: System, e: Event, id: GroupId)
    requires id in s.groups
    ensures id in Step(s, e).groups && Step(s, e).groups[id].start == s.groups[id].start
  {
  }

  lemma NewGroup(s: System, e: Event, id: GroupId)
    requires id !in s.groups && id in Step(s, e).groups
    ensures e.Create? && e.group == id
    ensures Step(s, e).groups[id].start == if e.fromStart then 0 else |StreamOf(s, id.key)|
  {
  }

  lemma {:induction false} StartsWhereCreated(events: seq<Event>, id: GroupId)
    requires id in Run(EMPTY, events).groups
    ensures exists j :: CreatedAt(events, id, j, Run(EMPTY, events).groups[id].start)
  {
    if events != [] {
      var n := |events| - 1;
      var before, s, start := events[..n], Run(EMPTY, events[..n]), Run(EMPTY, events).groups[id].start;
      if id in s.groups {
        StartsWhereCreated(before, id);
        StartStays(s, events[n], id);
        var j :| CreatedAt(before, id, j, start);
        assert before[..j] == events[..j];
        assert CreatedAt(events, id, j, start);
      } else {
        NewGroup(s, events[n], id);
        assert CreatedAt(events, id, n, start);
      }
    }
  }

  /**
   A group's deliveries are the entries since its creation, in order and each
   once, and split into acknowledged and pending.
   */
  lemma DeliveredOnceInOrder(events: seq<Event>, id: GroupId)
    requires id in Run(EMPTY, events).groups
    ensures var s := Run(EMPTY, events);
            var g := s.groups[id];
            && g.start <= g.cursor <= |StreamOf(s, id.key)|
            && g.delivered == Range(g.start, g.cursor)
            && Distinct(StreamOf(s, id.key)[g.start..g.cursor])
            && g.pending !! g.acked && (set i | i in g.delivered) == g.pending + g.acked && g.acked <= g.succeeded
  {
    RunSound(events);
    var s := Run(EMPTY, events);
    var g := s.groups[id];
    assert GroupSound(g, |StreamOf(s, id.key)|);
    forall i
      ensures i in g.delivered <==> g.start <= i < g.cursor
    {
      assert g.start <= i < g.cursor ==> g.delivered[i - g.start] == i;
    }
    if id.key in s.streams {
      assert StreamSound(s, id.key, s.streams[id.key]);
    }
  }

  /** What the consumer makes of a message's entry. */
  function Delivery(m: Message): (obj: map<string, string>)
    ensures forall name :: name in NAMES ==> name in obj
  {
    ReceivedIsSent(m);
    ObjectOf(Fields(m))
  }

  /** Whatever a tenant's subscriber is given was stored for that tenant, and a replay that is long enough holds it. */
  lemma DeliveredIsStored(events: seq<Event>, tenant: string, name: string, i: nat, limit: nat)
    requires var s := Run(EMPTY, events);
             var id := GroupId(StreamKey(tenant), name);
             id in s.groups && i in s.groups[id].delivered
    ensures var s := Run(EMPTY, events);
            var stream := StreamOf(s, StreamKey(tenant));
            && i < |stream| && stream[i] in s.store && stream[i].tenant == tenant
            && Received(tenant, Delivery(stream[i])) == Normal(stream[i])
            && (|Of(s.store, tenant, stream[i].mission)| <= limit ==>
                  stream[i] in Replay(s.store, tenant, stream[i].mission, limit))
  {
    var s := Run(EMPTY, events);
    var key := StreamKey(tenant);
    RunSound(events);
    assert GroupSound(s.groups[GroupId(key, name)], |StreamOf(s, key)|);
    assert StreamSound(s, key, s.streams[key]);
    var m := StreamOf(s, key)[i];
    assert m in s.streams[key];
    StreamKeyInjective(m.tenant, tenant);
    ReceivedIsSent(m);
  }

  // ---- No second delivery ----

  /** Delivered, not acknowledged, and no longer in anyone's hand. */
  ghost predicate Abandoned(s: System, id: GroupId, i: nat) {
    && id in s.groups && i in s.groups[id].pending
    && forall c :: c in s.consumers && s.consumers[c].group == id ==>
                     !(s.consumers[c].next <= i < s.consumers[c].end)
  }

  lemma AbandonedStep(s: System, e: Event, id: GroupId, i: nat)
    requires GroupsSound(s) && Abandoned(s, id, i)
    ensures Abandoned(Step(s, e), id, i)
  {
    assert GroupSound(s.groups[id], |StreamOf(s, id.key)|);
  }

  lemma {:induction false} AbandonedForever(s: System, more: seq<Event>, id: GroupId, i: nat)
    requires Sound(s) && Abandoned(s, id, i)
    ensures Sound(Run(s, more)) && Abandoned(Run(s, more), id, i)
  {
    if more != [] {
      var t := Run(s, more[..|more| - 1]);
      AbandonedForever(s, more[..|more| - 1], id, i);
      SoundStep(t, more[|more| - 1]);
      AbandonedStep(t, more[|more| - 1], id, i);
    }
  }

  lemma HandlerFails(s: System, c: string)
    requires Sound(s) && Enabled(s, Handle(c, false))
    ensures Abandoned(Step(s, Handle(c, false)), s.consumers[c].group, s.consumers[c].next)
  {
    var w := s.consumers[c];
    assert InHand(s.groups[w.group], w);
    forall d | d in s.consumers && d != c
      ensures Apart(s.consumers[d], w)
    {
    }
  }

  lemma ConsumerDies(s: System, c: string, i: nat)
    requires Sound(s) && c in s.consumers && s.consumers[c].next <= i < s.consumers[c].end
    ensures Abandoned(Step(s, Die(c)), s.consumers[c].group, i)
  {
    var w := s.consumers[c];
    assert InHand(s.groups[w.group], w);
    forall d | d in s.consumers && d != c
      ensures Apart(s.consumers[d], w)
    {
    }
  }

  /** An entry whose handler threw is delivered to its group no more, and never acknowledged. */
  lemma FailedHandlerIsFinal(events: seq<Event>, c: string, more: seq<Event>)
    requires Enabled(Run(EMPTY, events), Handle(c, false))
    ensures var w := Run(EMPTY, events).consumers[c];
            Abandoned(Run(Step(Run(EMPTY, events), Handle(c, false)), more), w.group, w.next)
  {
    RunSound(events);
    var s := Run(EMPTY, events);
    HandlerFails(s, c);
    SoundStep(s, Handle(c, false));
    AbandonedForever(Step(s, Handle(c, false)), more, s.consumers[c].group, s.consumers[c].next);
  }

  /** Nor is anything that a dead consumer still had in hand. */
  lemma DeadConsumerIsFinal(events: seq<Event>, c: string, i: nat, more: seq<Event>)
    requires var s := Run(EMPTY, events); c in s.consumers && s.consumers[c].next <= i < s.consumers[c].end
    ensures Abandoned(Run(Step(Run(EMPTY, events), Die(c)), more), Run(EMPTY, events).consumers[c].group, i)
  {
    RunSound(events);
    var s := Run(EMPTY, events);
    ConsumerDies(s, c, i);
    SoundStep(s, Die(c));
    AbandonedForever(Step(s, Die(c)), more, s.consumers[c].group, i);
  }

  // ---- A publication cut short ----

  /** Stored, but in no stream and with nobody left to append it. */
  ghost predicate Unannounced(s: System, m: Message) {
    m in s.store && m !in s.publishing && forall key :: key in s.streams ==> m !in s.streams[key]
  }

  lemma UnannouncedStep(s: System, e: Event, m: Message)
    requires Unannounced(s, m)
    ensures Unannounced(Step(s, e), m)
  {
  }

  lemma {:induction false} StaysUnannounced(s: System, more: seq<Event>, m: Message)
    requires Unannounced(s, m)
    ensures Unannounced(Run(s, more), m)
  {
    if more != [] {
      StaysUnannounced(s, more[..|more| - 1], m);
      UnannouncedStep(Run(s, more[..|more| - 1]), more[|more| - 1], m);
    }
  }

  /** A message whose publisher stops between the two writes never reaches a stream; only replay shows it. */
  lemma LostPublicationIsFinal(events: seq<Event>, m: Message, more: seq<Event>)
    requires m in Run(EMPTY, events).publishing
    ensures Unannounced(Run(Step(Run(EMPTY, events), Lose(m)), more), m)
  {
    RunSound(events);
    var s := Run(EMPTY, events);
    forall key | key in s.streams
      ensures m !in s.streams[key]
    {
      assert StreamSound(s, key, s.streams[key]);
    }
    StaysUnannounced(Step(s, Lose(m)), more, m);
  }

  // ---- Replay ----

  lemma {:induction false} OfDistinct(store: seq<Message>, tenant: string, mission: string)
    requires forall i, j :: 0 <= i < j < |store| ==> store[i].id != store[j].id
    ensures Distinct(Of(store, tenant, mission))
  {
    if store != [] {
      var before := store[..|store| - 1];
      OfDistinct(before, tenant, mission);
      assert store[|store| - 1] !in before;
    }
  }

  ghost predicate Covers(messages: seq<Message>, store: seq<Message>, tenant: string, mission: string) {
    forall m :: m in store && m.tenant == tenant && m.mission == mission ==> m in messages
  }

  /** A replay holds the whole history of a mission exactly when the limit does not cut it. */
  lemma ReplayCoversIff(events: seq<Event>, tenant: string, mission: string, limit: nat)
    ensures var store := Run(EMPTY, events).store;
            Covers(Replay(store, tenant, mission, limit), store, tenant, mission) <==>
              |Of(store, tenant, mission)| <= limit
  {
    RunSound(events);
    var store := Run(EMPTY, events).store;
    OfDistinct(store, tenant, mission);
    var all := Of(store, tenant, mission);
    if limit < |all| {
      assert all[limit] in all && all[limit] !in all[..limit];
    }
  }
}
