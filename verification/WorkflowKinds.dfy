/** What each kind of node does with its input, said of values and outcomes. */
module WorkflowKinds {
  import opened Wrappers
  import opened WorkflowNodes
  import opened WorkflowRouter

  // ---- Objects ----

  /** The first entry with the key. */
  ghost predicate FirstAt(entries: seq<(string, Json)>, key: string, i: int) {
    0 <= i < |entries| && entries[i].0 == key && forall j :: 0 <= j < i ==> entries[j].0 != key
  }

  lemma FirstBehind(entries: seq<(string, Json)>, key: string, i: int)
    requires entries != [] && entries[0].0 != key && FirstAt(entries[1..], key, i)
    ensures FirstAt(entries, key, i + 1)
  {
    forall j | 0 <= j < i + 1
      ensures entries[j].0 != key
    {
      assert j > 0 ==> entries[1..][j - 1] == entries[j];
    }
  }

  lemma {:induction false} LookupIsFirst(entries: seq<(string, Json)>, key: string)
    ensures match Lookup(entries, key)
            case Some(v) => exists i :: FirstAt(entries, key, i) && entries[i].1 == v
            case None => forall i :: 0 <= i < |entries| ==> entries[i].0 != key
  {
    if entries != [] && entries[0].0 != key {
      LookupIsFirst(entries[1..], key);
      if Lookup(entries, key).Some? {
        var i :| FirstAt(entries[1..], key, i) && entries[1..][i].1 == Lookup(entries, key).value;
        FirstBehind(entries, key, i);
      } else {
        forall i | 0 <= i < |entries|
          ensures entries[i].0 != key
        {
          assert i > 0 ==> entries[1..][i - 1] == entries[i];
        }
      }
    } else if entries != [] {
      assert FirstAt(entries, key, 0);
    }
  }

  function KeysOf(entries: seq<(string, Json)>): (keys: seq<string>)
    ensures |keys| == |entries| && forall i :: 0 <= i < |entries| ==> keys[i] == entries[i].0
  {
    seq(|entries|, i requires 0 <= i < |entries| => entries[i].0)
  }

  lemma KeysOfCons(e: (string, Json), rest: seq<(string, Json)>)
    ensures KeysOf([e] + rest) == [e.0] + KeysOf(rest)
  {
  }

  /** A new field comes last, and one set again stays in its place. */
  lemma {:induction false} SetFieldKeys(entries: seq<(string, Json)>, key: string, value: Json)
    ensures KeysOf(SetField(entries, key, value)) == KeysOf(entries) + if key in KeysOf(entries) then [] else [key]
  {
    if entries != [] {
      var e, rest := entries[0], entries[1..];
      assert entries == [e] + rest;
      KeysOfCons(e, rest);
      KeysOfCons((key, value), rest);
      KeysOfCons(e, SetField(rest, key, value));
      SetFieldKeys(rest, key, value);
    }
  }

  /** Setting a field changes no other one. */
  lemma {:induction false} LookupSet(entries: seq<(string, Json)>, key: string, value: Json, other: string)
    ensures Lookup(SetField(entries, key, value), other) == if other == key then Some(value) else Lookup(entries, other)
  {
    if entries != [] {
      LookupSet(entries[1..], key, value, other);
    }
  }

  // ---- Paths ----

  /** An own member, or else an inherited one. */
  ghost predicate IsMember(rt: Runtime, from: Json, key: string, v: Json) {
    if from.Obj? && exists i :: FirstAt(from.entries, key, i)
    then exists i :: FirstAt(from.entries, key, i) && v == from.entries[i].1
    else v == rt.inherited(from, key)
  }

  /** A path reaches `v` in the state: from the output of its root, member by member, none of them null or undefined. */
  ghost predicate Reaches(rt: Runtime, from: Json, path: seq<string>, v: Json)
    decreases |path|
  {
    if path == [] then v == from
    else
      && from != Undefined && from != Null
      && exists next :: IsMember(rt, from, path[0], next) && Reaches(rt, next, path[1..], v)
  }

  lemma FirstIsUnique(entries: seq<(string, Json)>, key: string, i: int, j: int)
    requires FirstAt(entries, key, i) && FirstAt(entries, key, j)
    ensures i == j
  {
  }

  lemma OwnMember(entries: seq<(string, Json)>, key: string, i: int)
    requires FirstAt(entries, key, i)
    ensures Lookup(entries, key) == Some(entries[i].1)
  {
    LookupIsFirst(entries, key);
    if Lookup(entries, key).Some? {
      var j :| FirstAt(entries, key, j) && entries[j].1 == Lookup(entries, key).value;
      FirstIsUnique(entries, key, i, j);
    }
  }

  lemma MemberIsMember(rt: Runtime, from: Json, key: string, v: Json)
    ensures IsMember(rt, from, key, v) <==> v == Member(rt, from, key)
  {
    if from.Obj? {
      LookupIsFirst(from.entries, key);
      forall i | FirstAt(from.entries, key, i)
        ensures Lookup(from.entries, key) == Some(from.entries[i].1)
      {
        OwnMember(from.entries, key, i);
      }
    }
  }

  lemma {:induction false} WalkReaches(rt: Runtime, from: Json, path: seq<string>, v: Json)
    requires v != Undefined
    ensures Reaches(rt, from, path, v) <==> Walk(rt, from, path) == v
    decreases |path|
  {
    if path != [] && from != Undefined && from != Null {
      var next := Member(rt, from, path[0]);
      MemberIsMember(rt, from, path[0], next);
      WalkReaches(rt, next, path[1..], v);
      forall other | IsMember(rt, from, path[0], other)
        ensures other == next
      {
        MemberIsMember(rt, from, path[0], other);
      }
    }
  }

  /** A path that starts with the dollar sign leads from the node its first part names; any other text is itself. */
  lemma ResolveMeans(rt: Runtime, ref: string, state: State, v: Json)
    requires v != Undefined
    ensures (|ref| < 2 || ref[0] != '$' || ref[1] != '.') ==> (Resolve(rt, ref, state) == v <==> v == Str(ref))
    ensures |ref| >= 2 && ref[0] == '$' && ref[1] == '.' ==>
              var parts := Parts(ref);
              var root := if parts[0] in state then state[parts[0]] else rt.inherited(Obj([]), parts[0]);
              (Resolve(rt, ref, state) == v <==> Reaches(rt, root, parts[1..], v))
  {
    if |ref| >= 2 {
      assert ref[..2] == [ref[0], ref[1]];
      assert "$." == ['$', '.'];
    }
    if IsPath(ref) {
      WalkReaches(rt, Root(rt, state, RootKey(ref)), Parts(ref)[1..], v);
    }
  }

  // ---- Inputs ----

  /** No entry of the mapping from `i` on is for the field. */
  ghost predicate NotMapped(mapping: seq<(string, string)>, field: string, i: nat) {
    forall j :: i <= j < |mapping| ==> mapping[j].0 != field
  }

  /** A field that the mapping does not name is the one given by default. */
  lemma {:induction false} FieldKept(rt: Runtime, mapping: seq<(string, string)>, state: State,
                                     entries: seq<(string, Json)>, field: string)
    requires NotMapped(mapping, field, 0)
    ensures Lookup(Fields(rt, mapping, state, entries), field) == Lookup(entries, field)
  {
    if mapping != [] {
      var n := |mapping| - 1;
      FieldKept(rt, mapping[..n], state, entries, field);
      LookupSet(Fields(rt, mapping[..n], state, entries), mapping[n].0, Resolve(rt, mapping[n].1, state), field);
    }
  }

  /** A field that it names has the value of the last reference for it. */
  lemma {:induction false} FieldGiven(rt: Runtime, mapping: seq<(string, string)>, i: nat, state: State,
                                      entries: seq<(string, Json)>)
    requires i < |mapping| && NotMapped(mapping, mapping[i].0, i + 1)
    ensures Lookup(Fields(rt, mapping, state, entries), mapping[i].0) == Some(Resolve(rt, mapping[i].1, state))
  {
    var n, field := |mapping| - 1, mapping[i].0;
    LookupSet(Fields(rt, mapping[..n], state, entries), mapping[n].0, Resolve(rt, mapping[n].1, state), field);
    if i < n {
      FieldGiven(rt, mapping[..n], i, state, entries);
    }
  }

  /** The input of a node: its default input, overwritten by what its mapping leads to. */
  lemma InputMeans(rt: Runtime, node: Node, state: State, field: string, i: nat)
    ensures Input(rt, node, state).Obj?
    ensures NotMapped(node.inputMapping, field, 0) ==>
              Lookup(Input(rt, node, state).entries, field) == Lookup(node.defaultInput, field)
    ensures i < |node.inputMapping| && node.inputMapping[i].0 == field && NotMapped(node.inputMapping, field, i + 1) ==>
              Lookup(Input(rt, node, state).entries, field) == Some(Resolve(rt, node.inputMapping[i].1, state))
  {
    if NotMapped(node.inputMapping, field, 0) {
      FieldKept(rt, node.inputMapping, state, node.defaultInput, field);
    }
    if i < |node.inputMapping| && node.inputMapping[i].0 == field && NotMapped(node.inputMapping, field, i + 1) {
      FieldGiven(rt, node.inputMapping, i, state, node.defaultInput);
    }
  }

  // ---- Decisions ----

  /** The decision succeeds with this result, and the branch that goes with it. */
  ghost predicate Decides(outcome: Outcome, result: bool) {
    && outcome.Success? && outcome.value.Obj?
    && Lookup(outcome.value.entries, "result") == Some(Bool(result))
    && Lookup(outcome.value.entries, "branch") == Some(Str(if result then "true" else "false"))
  }

  /** What a decision tests: what the field leads to in the state, or, if that is null or undefined, the input's
      field. */
  ghost predicate IsTested(rt: Runtime, node: Node, field: string, state: State, v: Json) {
    var found := Resolve(rt, field, state);
    if found != Undefined && found != Null then v == found else IsMember(rt, Input(rt, node, state), field, v)
  }

  ghost predicate Scalar(v: Json) {
    v.Undefined? || v.Null? || v.Bool? || v.Num? || v.Str?
  }

  /** When a condition holds of a value. */
  ghost predicate HoldsOf(rt: Runtime, operator: Operator, v: Json, operand: Json) {
    var a, b := rt.toNumber(v), rt.toNumber(operand);
    match operator
    case Eq => Scalar(v) && v == operand
    case Neq => !Scalar(v) || v != operand
    case Gt => a.Some? && b.Some? && a.value > b.value
    case Lt => a.Some? && b.Some? && a.value < b.value
    case Exists => v != Undefined && v != Null
    case OtherOperator => v !in {Undefined, Null, Bool(false), Num(0.0), Str("")}
  }

  lemma CompareMeans(rt: Runtime, operator: Operator, v: Json, operand: Json)
    ensures Compare(rt, operator, v, operand) <==> HoldsOf(rt, operator, v, operand)
  {
  }

  lemma TestedMeans(rt: Runtime, node: Node, field: string, state: State, v: Json)
    ensures IsTested(rt, node, field, state, v) <==> v == Tested(rt, field, Input(rt, node, state), state)
  {
    MemberIsMember(rt, Input(rt, node, state), field, v);
  }

  lemma EvaluationDecides(rt: Runtime, node: Node, state: State)
    requires node.kind.Decision?
    ensures match Evaluate(rt, node.condition, Input(rt, node, state), state)
            case Success(b) => Decides(Execute(rt, node, state), b)
            case Failure(_) => Execute(rt, node, state).Failure?
  {
  }

  /** A decision without a condition is true, one with a fixed condition that; a test decides on its value. */
  lemma DecisionMeans(rt: Runtime, node: Node, state: State, v: Json)
    requires node.kind.Decision?
    ensures match node.condition
            case Absent => Decides(Execute(rt, node, state), true)
            case Fixed(b) => Decides(Execute(rt, node, state), b)
            case Test(None, _, _) => Execute(rt, node, state).Failure?
            case Test(Some(field), operator, operand) =>
              IsTested(rt, node, field, state, v) ==>
                Decides(Execute(rt, node, state), HoldsOf(rt, operator, v, operand))
  {
    EvaluationDecides(rt, node, state);
    match node.condition {
      case Test(Some(field), operator, operand) =>
        TestedMeans(rt, node, field, state, v);
        CompareMeans(rt, operator, v, operand);
      case _ =>
    }
  }

  /** A test tests exactly one value. */
  lemma TestsOne(rt: Runtime, node: Node, field: string, state: State)
    ensures exists v :: IsTested(rt, node, field, state, v)
                        && forall w :: IsTested(rt, node, field, state, w) ==> w == v
  {
    var found, other := Resolve(rt, field, state), Member(rt, Input(rt, node, state), field);
    var v := if found != Undefined && found != Null then found else other;
    MemberIsMember(rt, Input(rt, node, state), field, other);
    forall w | IsTested(rt, node, field, state, w)
      ensures w == v
    {
      MemberIsMember(rt, Input(rt, node, state), field, w);
    }
    assert IsTested(rt, node, field, state, v);
  }

  // ---- The other kinds ----

  /** Whether the node asks a service, which must not fail. */
  ghost predicate AsksService(node: Node) {
    && !node.kind.Start? && !node.kind.End? && !node.kind.Decision? && !node.kind.Unknown?
    && (node.kind.Skill? ==> node.capability.Some? && |node.capability.value| > 0)
  }

  /** A node of an unknown kind fails, a service node gives what the service gives, and others fail only with theirs. */
  lemma ServicesMean(rt: Runtime, node: Node, state: State)
    requires !node.kind.Decision?
    ensures var r, answer := Execute(rt, node, state), rt.call(node, Input(rt, node, state));
            && (node.kind.Connector? || node.kind.Agent? || node.kind.Adapter? ==> r == answer)
            && (r.Failure? <==> node.kind.Unknown? || (AsksService(node) && answer.Failure?))
            && (r.Failure? && !node.kind.Unknown? ==> r == answer)
  {
  }

  /** The object has exactly these members, in this order. */
  ghost predicate Gives(outcome: Outcome, entries: seq<(string, Json)>) {
    outcome == Success(Obj(entries))
  }

  /** What the nodes give that do not hand on an answer. */
  lemma OutputsMean(rt: Runtime, node: Node, state: State)
    requires Execute(rt, node, state).Success?
    ensures var r, input := Execute(rt, node, state), Input(rt, node, state);
            && (node.kind.Start? ==> Gives(r, [("marker", Str("start"))]))
            && (node.kind.End? ==> Gives(r, [("marker", Str("end"))]))
            && (node.kind.Human? ==> Gives(r, [("waiting", Bool(true)), ("prompt", node.prompt)]))
            && (node.kind.Skill? ==> r.value.Obj? && |r.value.entries| == 3 && r.value.entries[2] == ("input", input))
  {
  }
}
