/** One workflow node: resolving its input from the shared state, and running it. */
module WorkflowRouter {
  import opened Wrappers
  import opened Splitting
  import opened WorkflowNodes

  type State = map<string, Json>

  /** What lies outside the engine: inherited members, number conversion, and the connector,
      agent, adapter, mission and schema services, as a function of the node and its resolved input. */
  datatype Runtime = Runtime(
    inherited: (Json, string) -> Json,
    toNumber: Json -> Option<real>,
    call: (Node, Json) -> Result<Json, string>)

  type Outcome = Result<Json, string>

  predicate Nullish(v: Json) {
    v.Undefined? || v.Null?
  }

  function Lookup(entries: seq<(string, Json)>, key: string): Option<Json> {
    if entries == [] then None
    else if entries[0].0 == key then Some(entries[0].1)
    else Lookup(entries[1..], key)
  }

  function SetField(entries: seq<(string, Json)>, key: string, value: Json): seq<(string, Json)> {
    if entries == [] then [(key, value)]
    else if entries[0].0 == key then [(key, value)] + entries[1..]
    else [entries[0]] + SetField(entries[1..], key, value)
  }

  function Member(rt: Runtime, v: Json, key: string): Json {
    if v.Obj? && Lookup(v.entries, key).Some? then Lookup(v.entries, key).value else rt.inherited(v, key)
  }

  predicate IsPath(ref: string) {
    |ref| >= 2 && ref[..2] == "$."
  }

  function Parts(ref: string): (parts: seq<string>)
    requires IsPath(ref)
    ensures parts != []
  {
    Split(ref[2..], ".")
  }

  /** The state key a path starts from. */
  function RootKey(ref: string): string
    requires IsPath(ref)
  {
    Parts(ref)[0]
  }

  function Root(rt: Runtime, state: State, key: string): Json {
    if key in state then state[key] else rt.inherited(Obj([]), key)
  }

  function Walk(rt: Runtime, v: Json, parts: seq<string>): Json
    decreases |parts|
  {
    if parts == [] then v
    else if Nullish(v) then Undefined
    else Walk(rt, Member(rt, v, parts[0]), parts[1..])
  }

  /** A reference that is no path stands for itself. */
  function Resolve(rt: Runtime, ref: string, state: State): Json {
    if IsPath(ref) then Walk(rt, Root(rt, state, RootKey(ref)), Parts(ref)[1..]) else Str(ref)
  }

  method ResolveJsonPath(rt: Runtime, ref: string, state: State) returns (v: Json)
    ensures v == Resolve(rt, ref, state)
  {
    if !IsPath(ref) {
      return Str(ref);
    }
    var parts := Parts(ref);
    v := Root(rt, state, parts[0]);
    for i := 1 to |parts|
      invariant Walk(rt, v, parts[i..]) == Resolve(rt, ref, state)
    {
      if Nullish(v) {
        return Undefined;
      }
      v := Member(rt, v, parts[i]);
    }
  }

  function Fields(rt: Runtime, mapping: seq<(string, string)>, state: State, entries: seq<(string, Json)>)
    : seq<(string, Json)>
  {
    if mapping == [] then entries
    else
      var (field, ref) := mapping[|mapping| - 1];
      SetField(Fields(rt, mapping[..|mapping| - 1], state, entries), field, Resolve(rt, ref, state))
  }

  function Input(rt: Runtime, node: Node, state: State): Json {
    Obj(Fields(rt, node.inputMapping, state, node.defaultInput))
  }

  method ResolveInput(rt: Runtime, node: Node, state: State) returns (input: Json)
    ensures input == Input(rt, node, state)
  {
    var entries := node.defaultInput;
    for i := 0 to |node.inputMapping|
      invariant entries == Fields(rt, node.inputMapping[..i], state, node.defaultInput)
    {
      var (field, ref) := node.inputMapping[i];
      var value := ResolveJsonPath(rt, ref, state);
      entries := SetField(entries, field, value);
      assert node.inputMapping[..i + 1][..i] == node.inputMapping[..i];
    }
    assert node.inputMapping[..|node.inputMapping|] == node.inputMapping;
    input := Obj(entries);
  }

  /** Strict equality; two separately built arrays or objects are never the same. */
  predicate StrictEqual(a: Json, b: Json) {
    a == b && !a.Arr? && !a.Obj?
  }

  predicate Truthy(v: Json) {
    match v
    case Undefined => false
    case Null => false
    case Bool(b) => b
    case Num(n) => n != 0.0
    case Str(s) => s != ""
    case Arr(_) => true
    case Obj(_) => true
  }

  predicate NumbersCompare(rt: Runtime, low: Json, high: Json) {
    rt.toNumber(low).Some? && rt.toNumber(high).Some? && rt.toNumber(low).value < rt.toNumber(high).value
  }

  predicate Compare(rt: Runtime, operator: Operator, v: Json, operand: Json) {
    match operator
    case Eq => StrictEqual(v, operand)
    case Neq => !StrictEqual(v, operand)
    case Gt => NumbersCompare(rt, operand, v)
    case Lt => NumbersCompare(rt, v, operand)
    case Exists => !Nullish(v)
    case OtherOperator => Truthy(v)
  }

  /** The value a condition tests: what its field resolves to, or else the input's field of that name. */
  function Tested(rt: Runtime, field: string, input: Json, state: State): Json {
    var found := Resolve(rt, field, state);
    if Nullish(found) then Member(rt, input, field) else found
  }

  /** A condition without a field throws. */
  function Evaluate(rt: Runtime, condition: Condition, input: Json, state: State): Result<bool, string> {
    match condition
    case Absent => Success(true)
    case Fixed(b) => Success(b)
    case Test(None, _, _) => Failure("field is not a string")
    case Test(Some(field), operator, operand) =>
      Success(Compare(rt, operator, Tested(rt, field, input, state), operand))
  }

  /** An empty capability counts as none. */
  predicate HasCapability(node: Node) {
    node.capability.Some? && node.capability.value != ""
  }

  /** The result of a node that starts on `state`. */
  function Execute(rt: Runtime, node: Node, state: State): Outcome {
    var input := Input(rt, node, state);
    match node.kind
    case Start => Success(Obj([("marker", Str("start"))]))
    case End => Success(Obj([("marker", Str("end"))]))
    case Decision =>
      (match Evaluate(rt, node.condition, input, state)
       case Success(b) => Success(Obj([("result", Bool(b)), ("branch", Str(if b then "true" else "false"))]))
       case Failure(e) => Failure(e))
    case Human =>
      (match rt.call(node, input)
       case Success(_) => Success(Obj([("waiting", Bool(true)), ("prompt", node.prompt)]))
       case Failure(e) => Failure(e))
    case Skill =>
      (match if HasCapability(node) then rt.call(node, input) else Success(Null)
       case Success(_) =>
         Success(Obj([("note", Str("Skill execution placeholder")),
                      ("capability", if node.capability.Some? then Str(node.capability.value) else Undefined),
                      ("input", input)]))
       case Failure(e) => Failure(e))
    case Unknown(_) => Failure("Unknown node type")
    case _ => rt.call(node, input)
  }

  /** Whether the node writes its output before it first waits for anything. */
  predicate WritesAtOnce(node: Node) {
    node.kind.Start? || node.kind.End? || node.kind.Decision? || (node.kind.Skill? && !HasCapability(node))
  }

  /** A human node that succeeded pauses the workflow. */
  predicate Pauses(node: Node, outcome: Outcome) {
    node.kind.Human? && outcome.Success?
  }

  /** The state keys the node can look at. */
  function Reads(node: Node): set<string> {
    (set m | m in node.inputMapping && IsPath(m.1) :: RootKey(m.1)) +
    (if node.kind.Decision? && node.condition.Test? && node.condition.field.Some? && IsPath(node.condition.field.value)
     then {RootKey(node.condition.field.value)} else {})
  }

  ghost predicate Agree(s: State, t: State, keys: set<string>) {
    forall k :: k in keys ==> (k in s <==> k in t) && (k in s ==> s[k] == t[k])
  }

  lemma ResolveAgrees(rt: Runtime, ref: string, s: State, t: State)
    requires IsPath(ref) ==> Agree(s, t, {RootKey(ref)})
    ensures Resolve(rt, ref, s) == Resolve(rt, ref, t)
  {
    if IsPath(ref) {
      var key := RootKey(ref);
      assert key in {key};
      assert Root(rt, s, key) == Root(rt, t, key);
    }
  }

  lemma {:induction false} FieldsAgree(rt: Runtime, mapping: seq<(string, string)>, s: State, t: State,
                                       entries: seq<(string, Json)>)
    requires forall m :: m in mapping && IsPath(m.1) ==> Agree(s, t, {RootKey(m.1)})
    ensures Fields(rt, mapping, s, entries) == Fields(rt, mapping, t, entries)
  {
    if mapping != [] {
      FieldsAgree(rt, mapping[..|mapping| - 1], s, t, entries);
      var m := mapping[|mapping| - 1];
      assert m in mapping;
      ResolveAgrees(rt, m.1, s, t);
    }
  }

  lemma InputAgrees(rt: Runtime, node: Node, s: State, t: State)
    requires Agree(s, t, Reads(node))
    ensures Input(rt, node, s) == Input(rt, node, t)
  {
    forall m | m in node.inputMapping && IsPath(m.1)
      ensures Agree(s, t, {RootKey(m.1)})
    {
      assert RootKey(m.1) in Reads(node);
    }
    FieldsAgree(rt, node.inputMapping, s, t, node.defaultInput);
  }

  lemma EvaluateAgrees(rt: Runtime, node: Node, input: Json, s: State, t: State)
    requires Agree(s, t, Reads(node)) && node.kind.Decision?
    ensures Evaluate(rt, node.condition, input, s) == Evaluate(rt, node.condition, input, t)
  {
    if node.condition.Test? && node.condition.field.Some? {
      var field := node.condition.field.value;
      assert IsPath(field) ==> RootKey(field) in Reads(node);
      ResolveAgrees(rt, field, s, t);
      assert Tested(rt, field, input, s) == Tested(rt, field, input, t);
    }
  }

  /** A node's result depends on the state only through the keys it reads. */
  lemma ExecuteAgrees(rt: Runtime, node: Node, s: State, t: State)
    requires Agree(s, t, Reads(node))
    ensures Execute(rt, node, s) == Execute(rt, node, t)
  {
    InputAgrees(rt, node, s, t);
    if node.kind.Decision? {
      EvaluateAgrees(rt, node, Input(rt, node, s), s, t);
    }
  }
}
