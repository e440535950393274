/** Messages between agents, and the flat field list that carries one through a stream entry. */
module BusWire {
  import opened Wrappers
  import opened Sequences

  /** What the sender wrote; the payload is its JSON text. */
  datatype Body = Body(
    kind: string, fromAgent: string, toAgent: Option<string>, subject: Option<string>,
    payload: string, naturalSummary: Option<string>, correlationId: string)

  /** A stored message: the id is the row's, so no two stored messages share it. */
  datatype Message = Message(id: string, tenant: string, mission: string, body: Body)

  function StreamKey(tenant: string): string {
    "metis:mission:" + tenant + ":stream"
  }

  /** Tenants do not share streams. */
  lemma StreamKeyInjective(a: string, b: string)
    requires StreamKey(a) == StreamKey(b)
    ensures a == b
  {
    assert StreamKey(a)[14..|StreamKey(a)| - 7] == a;
    assert StreamKey(b)[14..|StreamKey(b)| - 7] == b;
  }

  function OrEmpty(text: Option<string>): string {
    if text.Some? then text.value else ""
  }

  function OrUndefined(text: string): Option<string> {
    if text == "" then None else Some(text)
  }

  const NAMES: seq<string> :=
    ["messageId", "missionId", "kind", "fromAgent", "toAgent", "subject", "payload", "naturalSummary", "correlationId"]

  function Values(m: Message): seq<string> {
    [m.id, m.mission, m.body.kind, m.body.fromAgent, OrEmpty(m.body.toAgent), OrEmpty(m.body.subject),
     m.body.payload, OrEmpty(m.body.naturalSummary), m.body.correlationId]
  }

  /** Names and values alternate. */
  function Interleave(names: seq<string>, values: seq<string>): (r: seq<string>)
    requires |names| == |values|
    ensures |r| == 2 * |names|
    ensures forall k :: 0 <= k < |names| ==> r[2 * k] == names[k] && r[2 * k + 1] == values[k]
  {
    if names == [] then []
    else
      var n := |names| - 1;
      Interleave(names[..n], values[..n]) + [names[n], values[n]]
  }

  function Fields(m: Message): seq<string> {
    Interleave(NAMES, Values(m))
  }

  /** The object of a flat list: a later value of a name replaces an earlier one. */
  function ObjectOf(fields: seq<string>): map<string, string>
    requires |fields| % 2 == 0
  {
    if fields == [] then map[]
    else ObjectOf(fields[..|fields| - 2])[fields[|fields| - 2] := fields[|fields| - 1]]
  }

  method FieldsToObject(fields: seq<string>) returns (obj: map<string, string>)
    requires |fields| % 2 == 0
    ensures obj == ObjectOf(fields)
  {
    obj := map[];
    var i := 0;
    while i < |fields|
      invariant 0 <= i <= |fields| && i % 2 == 0
      invariant obj == ObjectOf(fields[..i])
    {
      obj := obj[fields[i] := fields[i + 1]];
      assert fields[..i + 2][..i] == fields[..i];
      i := i + 2;
    }
    assert fields[..i] == fields;
  }

  /** With distinct names every value is found under its name. */
  lemma {:induction false} ObjectOfInterleave(names: seq<string>, values: seq<string>)
    requires |names| == |values| && Distinct(names)
    ensures var obj := ObjectOf(Interleave(names, values));
            && (forall k :: 0 <= k < |names| ==> names[k] in obj && obj[names[k]] == values[k])
            && (forall name :: name in obj ==> name in names)
  {
    if names != [] {
      var n := |names| - 1;
      ObjectOfInterleave(names[..n], values[..n]);
      var r := Interleave(names, values);
      assert r[..|r| - 2] == Interleave(names[..n], values[..n]);
      assert forall k :: 0 <= k < n ==> names[..n][k] == names[k] && values[..n][k] == values[k];
    }
  }

  /** What the handler of a subscription of this tenant is given. */
  function Received(tenant: string, obj: map<string, string>): Message
    requires forall name :: name in NAMES ==> name in obj
  {
    Message(obj[NAMES[0]], tenant, obj[NAMES[1]],
            Body(obj[NAMES[2]], obj[NAMES[3]], OrUndefined(obj[NAMES[4]]), OrUndefined(obj[NAMES[5]]),
                 if obj[NAMES[6]] == "" then "{}" else obj[NAMES[6]], OrUndefined(obj[NAMES[7]]), obj[NAMES[8]]))
  }

  /** Empty texts are taken for absent ones. */
  function Normal(m: Message): Message {
    m.(body := m.body.(toAgent := OrUndefined(OrEmpty(m.body.toAgent)), subject := OrUndefined(OrEmpty(m.body.subject)),
                       payload := if m.body.payload == "" then "{}" else m.body.payload,
                       naturalSummary := OrUndefined(OrEmpty(m.body.naturalSummary))))
  }

  lemma NamesDistinct()
    ensures Distinct(NAMES)
  {
    assert NAMES[0][0] == 'm' && NAMES[1][0] == 'm' && NAMES[0][1] == 'e' && NAMES[1][1] == 'i';
    assert NAMES[2][0] == 'k' && NAMES[3][0] == 'f' && NAMES[4][0] == 't' && NAMES[5][0] == 's';
    assert NAMES[6][0] == 'p' && NAMES[7][0] == 'n' && NAMES[8][0] == 'c';
  }

  /** A message survives the stream entry, except that empty texts become absent. */
  lemma ReceivedIsSent(m: Message)
    ensures var obj := ObjectOf(Fields(m));
            && (forall name :: name in NAMES ==> name in obj)
            && Received(m.tenant, obj) == Normal(m)
  {
    NamesDistinct();
    ObjectOfInterleave(NAMES, Values(m));
    var obj := ObjectOf(Fields(m));
    forall k | 0 <= k < 9
      ensures NAMES[k] in obj && obj[NAMES[k]] == Values(m)[k]
    {
    }
  }

  /** Exactly the messages without an empty text arrive as they were sent. */
  lemma ArrivesUnchangedIff(m: Message)
    ensures Normal(m) == m <==> m.body.toAgent != Some("") && m.body.subject != Some("")
                                && m.body.naturalSummary != Some("") && m.body.payload != ""
  {
    if Normal(m) == m {
      assert Normal(m).body == m.body;
    }
  }
}
