/**
 The message bus: publishers store a row and then append a stream entry;
 consumer groups read new entries, run a handler on each and acknowledge it.
 Any number of publishers and consumers interleave, and each may die anywhere.
 */
module MessageBus {
  import opened Wrappers
  import opened BusWire

  datatype GroupId = GroupId(key: string, name: string)

  /** A consumer group of a stream; entries are numbered by their place in the stream. */
  datatype Group = Group(
    start: nat,             // where the group was created
    cursor: nat,            // the next entry that a read for new entries hands out
    delivered: seq<nat>,    // everything handed out so far, in order
    pending: set<nat>,      // handed out and not acknowledged
    succeeded: set<nat>,    // the handler returned normally
    acked: set<nat>)

  /** A consumer loop working through the entries from `next` to `end` of its last read. */
  datatype Consumer = Consumer(group: GroupId, next: nat, end: nat, acking: bool)

  datatype System = System(
    store: seq<Message>,              // rows in the order of their creation
    publishing: set<Message>,         // stored, not yet appended
    streams: map<string, seq<Message>>,
    groups: map<GroupId, Group>,
    consumers: map<string, Consumer>)

  datatype Event =
    | Store(message: Message)
    | Append(message: Message)
    | Lose(message: Message)          // the publisher dies, or appending throws
    | Create(group: GroupId, fromStart: bool)
    | Read(consumer: string, group: GroupId, count: nat)
    | Handle(consumer: string, ok: bool)
    | Acknowledge(consumer: string, ok: bool)
    | Die(consumer: string)

  const EMPTY := System([], {}, map[], map[], map[])

  function StreamOf(s: System, key: string): seq<Message> {
    if key in s.streams then s.streams[key] else []
  }

  function Range(from: nat, to: nat): (r: seq<nat>)
    requires from <= to
    ensures |r| == to - from && forall k :: 0 <= k < |r| ==> r[k] == from + k
  {
    seq(to - from, k requires 0 <= k => from + k)
  }

  predicate IdFree(store: seq<Message>, id: string) {
    forall m :: m in store ==> m.id != id
  }

  predicate Busy(s: System, consumer: string) {
    consumer in s.consumers && s.consumers[consumer].next < s.consumers[consumer].end
  }

  predicate Enabled(s: System, e: Event) {
    match e
    case Store(m) => IdFree(s.store, m.id)
    case Append(m) => m in s.publishing
    case Lose(m) => m in s.publishing
    case Create(g, _) => g !in s.groups
    case Read(c, g, count) =>
      g in s.groups && !Busy(s, c) && count <= |StreamOf(s, g.key)| - s.groups[g].cursor
    case Handle(c, _) => Busy(s, c) && !s.consumers[c].acking && s.consumers[c].group in s.groups
    case Acknowledge(c, _) => Busy(s, c) && s.consumers[c].acking && s.consumers[c].group in s.groups
    case Die(c) => c in s.consumers
  }

  function HandOut(g: Group, count: nat): Group {
    var range := Range(g.cursor, g.cursor + count);
    g.(cursor := g.cursor + count, delivered := g.delivered + range, pending := g.pending + (set i | i in range))
  }

  function Do(s: System, e: Event): System
    requires Enabled(s, e)
  {
    match e
    case Store(m) => s.(store := s.store + [m], publishing := s.publishing + {m})
    case Append(m) =>
      var key := StreamKey(m.tenant);
      s.(publishing := s.publishing - {m}, streams := s.streams[key := StreamOf(s, key) + [m]])
    case Lose(m) => s.(publishing := s.publishing - {m})
    case Create(id, fromStart) =>
      var from := if fromStart then 0 else |StreamOf(s, id.key)|;
      s.(groups := s.groups[id := Group(from, from, [], {}, {}, {})])
    case Read(c, id, count) =>
      var g := s.groups[id];
      s.(groups := s.groups[id := HandOut(g, count)],
         consumers := s.consumers[c := Consumer(id, g.cursor, g.cursor + count, false)])
    case Handle(c, ok) =>
      var w := s.consumers[c];
      var g := s.groups[w.group];
      if ok then
        s.(consumers := s.consumers[c := w.(acking := true)],
           groups := s.groups[w.group := g.(succeeded := g.succeeded + {w.next})])
      else s.(consumers := s.consumers[c := w.(next := w.next + 1)])
    case Acknowledge(c, ok) =>
      var w := s.consumers[c];
      var g := s.groups[w.group];
      var t := s.(consumers := s.consumers[c := w.(next := w.next + 1, acking := false)]);
      if ok then t.(groups := s.groups[w.group := g.(pending := g.pending - {w.next}, acked := g.acked + {w.next})])
      else t
    case Die(c) => s.(consumers := s.consumers - {c})
  }

  /** An event that cannot happen now does not happen; so every list of events is a run. */
  function Step(s: System, e: Event): System {
    if Enabled(s, e) then Do(s, e) else s
  }

  function Run(s: System, events: seq<Event>): System {
    if events == [] then s else Step(Run(s, events[..|events| - 1]), events[|events| - 1])
  }

  /** The stored messages of one mission of one tenant, oldest first. */
  function Of(store: seq<Message>, tenant: string, mission: string): (r: seq<Message>)
    ensures forall m :: m in r <==> m in store && m.tenant == tenant && m.mission == mission
  {
    if store == [] then []
    else
      var m := store[|store| - 1];
      Of(store[..|store| - 1], tenant, mission) + if m.tenant == tenant && m.mission == mission then [m] else []
  }

  function Replay(store: seq<Message>, tenant: string, mission: string, limit: nat): seq<Message> {
    var all := Of(store, tenant, mission);
    if |all| <= limit then all else all[..limit]
  }

  /** How one handler call and its acknowledgement go. */
  datatype Outcome = Succeeds | HandlerThrows | AckThrows

  lemma UpdatedTwice(groups: map<GroupId, Group>, id: GroupId, g: Group, h: Group)
    ensures groups[id := g][id := h] == groups[id := h]
  {
  }

  lemma TwoSteps(s: System, e: Event, f: Event)
    ensures Run(s, [e, f]) == Step(Step(s, e), f)
  {
    assert [e, f][..1] == [e];
    assert Run(s, [e]) == Step(s, e);
  }

  function Processed(g: Group, i: nat, outcome: Outcome): Group {
    match outcome
    case HandlerThrows => g
    case AckThrows => g.(succeeded := g.succeeded + {i})
    case Succeeds => g.(succeeded := g.succeeded + {i}, pending := g.pending - {i}, acked := g.acked + {i})
  }

  /** The group after the handler ran on the entries from `first` to `end`. */
  function Worked(g: Group, first: nat, end: nat, outcome: nat -> Outcome): Group
    requires first <= end
  {
    if first == end then g
    else Processed(Worked(g, first, end - 1, outcome), end - 1, outcome(end - 1))
  }

  /** How many of `n` new entries one read takes. */
  function Batch(n: nat, batchSize: nat): nat {
    if batchSize < n then batchSize else n
  }

  function Polled(g: Group, length: nat, batchSize: nat, outcome: nat -> Outcome): Group
    requires g.cursor <= length
  {
    var count := Batch(length - g.cursor, batchSize);
    Worked(HandOut(g, count), g.cursor, g.cursor + count, outcome)
  }

  class A2ABus {
    var store: seq<Message>
    var publishing: set<Message>
    var streams: map<string, seq<Message>>
    var groups: map<GroupId, Group>
    var consumers: map<string, Consumer>

    function State(): System
      reads this
    {
      System(store, publishing, streams, groups, consumers)
    }

    constructor ()
      ensures State() == EMPTY
    {
      store, publishing, streams, groups, consumers := [], {}, map[], map[], map[];
    }

    /** Both writes of a publication, or only the first when appending throws. */
    method Publish(m: Message, appends: bool)
      requires IdFree(store, m.id)
      modifies this
      ensures State() == Run(old(State()), [Store(m), if appends then Append(m) else Lose(m)])
    {
      ghost var s := State();
      store := store + [m];
      publishing := publishing + {m};
      assert State() == Step(s, Store(m));
      publishing := publishing - {m};
      if appends {
        var key := StreamKey(m.tenant);
        streams := streams[key := (if key in streams then streams[key] else []) + [m]];
      }
      TwoSteps(s, Store(m), if appends then Append(m) else Lose(m));
    }

    /** Creating a group that exists is refused, and the refusal is ignored. */
    method EnsureGroup(group: GroupId, fromStart: bool)
      modifies this`groups
      ensures State() == Step(old(State()), Create(group, fromStart))
      ensures group in old(groups) ==> groups == old(groups)
    {
      if group !in groups {
        var from := if fromStart || group.key !in streams then 0 else |streams[group.key]|;
        groups := groups[group := Group(from, from, [], {}, {}, {})];
      }
    }

    /** The server hands out the next entries to this consumer and lists them as pending. */
    method ReadNew(consumer: string, group: GroupId, count: nat)
      requires Enabled(State(), Read(consumer, group, count))
      modifies this`groups, this`consumers
      ensures State() == Step(old(State()), Read(consumer, group, count))
      ensures groups == old(groups)[group := HandOut(old(groups[group]), count)]
      ensures var first := old(groups[group]).cursor;
              consumers == old(consumers)[consumer := Consumer(group, first, first + count, false)]
    {
      var first := groups[group].cursor;
      groups := groups[group := HandOut(groups[group], count)];
      consumers := consumers[consumer := Consumer(group, first, first + count, false)];
    }

    method CallHandler(consumer: string, ok: bool)
      requires Enabled(State(), Handle(consumer, ok))
      modifies this`groups, this`consumers
      ensures State() == Step(old(State()), Handle(consumer, ok))
    {
      var w := consumers[consumer];
      if ok {
        consumers := consumers[consumer := w.(acking := true)];
        groups := groups[w.group := groups[w.group].(succeeded := groups[w.group].succeeded + {w.next})];
      } else {
        consumers := consumers[consumer := w.(next := w.next + 1)];
      }
    }

    method SendAck(consumer: string, ok: bool)
      requires Enabled(State(), Acknowledge(consumer, ok))
      modifies this`groups, this`consumers
      ensures State() == Step(old(State()), Acknowledge(consumer, ok))
    {
      var w := consumers[consumer];
      consumers := consumers[consumer := w.(next := w.next + 1, acking := false)];
      if ok {
        var g := groups[w.group];
        groups := groups[w.group := g.(pending := g.pending - {w.next}, acked := g.acked + {w.next})];
      }
    }

    /** An error on one entry is logged; the consumer goes on to the next. */
    method ProcessEntry(consumer: string, group: GroupId, outcome: Outcome)
      requires Busy(State(), consumer) && group in groups
      requires consumers[consumer].group == group && !consumers[consumer].acking
      modifies this`groups, this`consumers
      ensures groups == old(groups)[group := Processed(old(groups[group]), old(consumers[consumer]).next, outcome)]
      ensures var w := old(consumers[consumer]); consumers == old(consumers)[consumer := w.(next := w.next + 1)]
    {
      CallHandler(consumer, outcome != HandlerThrows);
      if outcome != HandlerThrows {
        SendAck(consumer, outcome == Succeeds);
      }
    }

    method ProcessBatch(consumer: string, group: GroupId, first: nat, end: nat, outcome: nat -> Outcome)
      requires first <= end && group in groups
      requires consumer in consumers && consumers[consumer] == Consumer(group, first, end, false)
      modifies this`groups, this`consumers
      ensures consumers == old(consumers)[consumer := Consumer(group, end, end, false)]
      ensures groups == old(groups)[group := Worked(old(groups[group]), first, end, outcome)]
    {
      for i := first to end
        invariant groups == old(groups)[group := Worked(old(groups[group]), first, i, outcome)]
        invariant consumers == old(consumers)[consumer := Consumer(group, i, end, false)]
      {
        ProcessEntry(consumer, group, outcome(i));
      }
    }

    /** One turn of the consumer loop: read up to `batchSize` new entries, then process them one by one. */
    method Poll(consumer: string, group: GroupId, batchSize: nat, outcome: nat -> Outcome)
      requires group in groups && !Busy(State(), consumer) && groups[group].cursor <= |StreamOf(State(), group.key)|
      modifies this`groups, this`consumers
      ensures !Busy(State(), consumer)
      ensures groups ==
              old(groups)[group := Polled(old(groups[group]), |StreamOf(old(State()), group.key)|, batchSize, outcome)]
    {
      var first := groups[group].cursor;
      var count := Batch(|StreamOf(State(), group.key)| - first, batchSize);
      ghost var before, read := groups, HandOut(groups[group], count);
      ReadNew(consumer, group, count);
      ProcessBatch(consumer, group, first, first + count, outcome);
      UpdatedTwice(before, group, read, Worked(read, first, first + count, outcome));
    }
  }

  /** A turn of the loop acknowledges exactly the new entries whose handler and acknowledgement both worked. */
  lemma {:induction false} WorkedMeans(g: Group, first: nat, end: nat, outcome: nat -> Outcome)
    requires first <= end
    ensures var w := Worked(g, first, end, outcome);
            && w.start == g.start && w.cursor == g.cursor && w.delivered == g.delivered
            && (forall i :: i in w.acked <==> i in g.acked || (first <= i < end && outcome(i) == Succeeds))
            && (forall i :: i in w.pending <==> i in g.pending && !(first <= i < end && outcome(i) == Succeeds))
            && (forall i :: i in w.succeeded <==> i in g.succeeded || (first <= i < end && outcome(i) != HandlerThrows))
  {
    if first < end {
      WorkedMeans(g, first, end - 1, outcome);
    }
  }
}
