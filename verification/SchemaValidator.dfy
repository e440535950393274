/**
 The schema validator: a recursive walk that pushes errors into one shared list.
 Schemas are plain values themselves, so an unexpected shape is simply not checked.
 */
module SchemaValidator {
  import opened Texts
  import opened Wrappers
  import opened WorkflowNodes

  /** What the language runtime supplies: inherited members, texts of keys and indices, and patterns
      (no answer when the pattern does not compile). */
  datatype Host = Host(
    inherited: (Json, string) -> Option<Json>,
    keyText: Json -> string,
    indexText: nat -> string,
    matches: (Json, string) -> Option<bool>)

  datatype Segment = Key(key: string) | Index(index: nat)

  type Path = seq<Segment>

  datatype Fault =
    | WrongType | NotInEnum | Missing | Unexpected | TooFewItems | TooManyItems
    | TooShort | TooLong | NoMatch | TooSmall | TooLarge

  datatype Error = Error(path: Path, fault: Fault)

  // ---- Values ----

  predicate Truthy(v: Json) {
    match v
    case Undefined => false
    case Null => false
    case Bool(b) => b
    case Num(n) => n != 0.0
    case Str(s) => s != ""
    case _ => true
  }

  function Lookup(entries: seq<(string, Json)>, key: string): (r: Option<Json>)
    ensures r.Some? ==> exists i :: 0 <= i < |entries| && entries[i].1 == r.value
  {
    if entries == [] then None
    else if entries[0].0 == key then Some(entries[0].1)
    else
      var r := Lookup(entries[1..], key);
      assert forall i :: 0 <= i < |entries[1..]| ==> entries[1..][i] == entries[i + 1];
      r
  }

  /** A keyword of a schema; only objects have any. */
  function Field(v: Json, key: string): (r: Json)
    ensures r == Undefined || r < v
  {
    if v.Obj? && Lookup(v.entries, key).Some? then Lookup(v.entries, key).value else Undefined
  }

  function Member(h: Host, data: Json, key: string): Option<Json> {
    if data.Obj? && Lookup(data.entries, key).Some? then Lookup(data.entries, key) else h.inherited(data, key)
  }

  function Entries(h: Host, v: Json): (r: seq<(string, Json)>)
    ensures forall i :: 0 <= i < |r| ==> r[i].1 < v
  {
    match v
    case Obj(entries) => entries
    case Arr(items) => seq(|items|, i requires 0 <= i < |items| => (h.indexText(i), items[i]))
    case _ => []
  }

  function KeyNames(h: Host, v: Json): seq<string> {
    match v
    case Obj(entries) => seq(|entries|, i requires 0 <= i < |entries| => entries[i].0)
    case Arr(items) => seq(|items|, i requires 0 <= i < |items| => h.indexText(i))
    case Str(s) => seq(Units(s), i requires 0 <= i => h.indexText(i))
    case _ => []
  }

  /** Identity of values: two objects are never the same one. */
  predicate Same(a: Json, b: Json) {
    !a.Obj? && !a.Arr? && a == b
  }

  predicate IsType(schema: Json, name: string) {
    Field(schema, "type") == Str(name)
  }

  /** A type the validator does not know accepts everything. */
  predicate TypeHolds(data: Json, t: Json) {
    Truthy(t) ==>
      if t == Str("object") then data.Obj?
      else if t == Str("array") then data.Arr?
      else if t == Str("string") then data.Str?
      else if t == Str("number") then data.Num?
      else if t == Str("integer") then data.Num? && data.n == data.n.Floor as real
      else if t == Str("boolean") then data.Bool?
      else if t == Str("null") then data.Null?
      else true
  }

  // ---- The sub-schemas ----

  function SubSchemas(h: Host, schema: Json): (r: seq<(string, Json)>)
    ensures forall i :: 0 <= i < |r| ==> r[i].1 < schema
  {
    Entries(h, Field(schema, "properties"))
  }

  function KeyOf(h: Host, v: Json): string {
    if v.Str? then v.s else h.keyText(v)
  }

  function RequiredKeys(h: Host, schema: Json): seq<string> {
    var required := Field(schema, "required");
    if required.Arr? then seq(|required.items|, i requires 0 <= i < |required.items| => KeyOf(h, required.items[i]))
    else []
  }

  predicate Closed(schema: Json) {
    Field(schema, "additionalProperties") == Bool(false) && Truthy(Field(schema, "properties"))
  }

  // ---- What a schema demands ----

  predicate InEnum(data: Json, schema: Json) {
    var choices := Field(schema, "enum");
    choices.Arr? ==> exists i :: 0 <= i < |choices.items| && Same(choices.items[i], data)
  }

  /** A member that is null counts as missing. */
  predicate Present(h: Host, data: Json, key: string) {
    var m := Member(h, data, key);
    m.Some? && !m.value.Undefined? && !m.value.Null?
  }

  predicate AtLeast(n: real, bound: Json) {
    bound.Num? ==> bound.n <= n
  }

  predicate AtMost(n: real, bound: Json) {
    bound.Num? ==> n <= bound.n
  }

  predicate Fits(h: Host, text: string, pattern: Json) {
    Truthy(pattern) ==> h.matches(pattern, text) != Some(false)
  }

  ghost predicate AllPresent(h: Host, data: Json, keys: seq<string>) {
    forall k :: k in keys ==> Present(h, data, k)
  }

  ghost predicate AllKnown(keys: seq<string>, allowed: seq<string>) {
    forall k :: k in keys ==> k in allowed
  }

  predicate TextHolds(h: Host, text: string, schema: Json) {
    && AtLeast(Units(text) as real, Field(schema, "minLength"))
    && AtMost(Units(text) as real, Field(schema, "maxLength"))
    && Fits(h, text, Field(schema, "pattern"))
  }

  predicate NumberHolds(n: real, schema: Json) {
    AtLeast(n, Field(schema, "minimum")) && AtMost(n, Field(schema, "maximum"))
  }

  ghost predicate MembersHold(h: Host, data: Json, schema: Json, n: nat)
    requires n <= |SubSchemas(h, schema)|
    decreases schema, 0, 2
  {
    forall i :: 0 <= i < n ==> MemberHolds(h, data, schema, i)
  }

  ghost predicate ObjectHolds(h: Host, data: Json, schema: Json)
    decreases schema, 0, 3
  {
    && AllPresent(h, data, RequiredKeys(h, schema))
    && MembersHold(h, data, schema, |SubSchemas(h, schema)|)
    && (Closed(schema) ==> AllKnown(KeyNames(h, data), KeyNames(h, Field(schema, "properties"))))
  }

  ghost predicate ArrayHolds(h: Host, items: seq<Json>, schema: Json)
    decreases schema, 0, 2
  {
    && (Truthy(Field(schema, "items")) ==>
          forall i :: 0 <= i < |items| ==> Conforms(h, items[i], Field(schema, "items")))
    && AtLeast(|items| as real, Field(schema, "minItems")) && AtMost(|items| as real, Field(schema, "maxItems"))
  }

  ghost predicate KeywordsHold(h: Host, data: Json, schema: Json)
    decreases schema, 0, 4
  {
    && (IsType(schema, "object") && data.Obj? ==> ObjectHolds(h, data, schema))
    && (IsType(schema, "array") && data.Arr? ==> ArrayHolds(h, data.items, schema))
    && (IsType(schema, "string") && data.Str? ==> TextHolds(h, data.s, schema))
    && ((IsType(schema, "number") || IsType(schema, "integer")) && data.Num? ==> NumberHolds(data.n, schema))
  }

  /** The data satisfy the schema. */
  ghost predicate Conforms(h: Host, data: Json, schema: Json)
    decreases schema, 1
  {
    TypeHolds(data, Field(schema, "type")) && InEnum(data, schema) && KeywordsHold(h, data, schema)
  }

  /** A member that exists satisfies its sub-schema. */
  ghost predicate MemberHolds(h: Host, data: Json, schema: Json, i: nat)
    requires i < |SubSchemas(h, schema)|
    decreases schema, 0, 1
  {
    var (key, sub) := SubSchemas(h, schema)[i];
    Member(h, data, key).Some? ==> Conforms(h, Member(h, data, key).value, sub)
  }

  // ---- The errors, in the order they are found ----

  function Unless(ok: bool, path: Path, fault: Fault): seq<Error> {
    if ok then [] else [Error(path, fault)]
  }

  function MissingErrors(h: Host, data: Json, keys: seq<string>, path: Path): seq<Error> {
    if keys == [] then []
    else
      var key := keys[|keys| - 1];
      MissingErrors(h, data, keys[..|keys| - 1], path) + Unless(Present(h, data, key), path + [Key(key)], Missing)
  }

  function ExtraErrors(keys: seq<string>, allowed: seq<string>, path: Path): seq<Error> {
    if keys == [] then []
    else
      var key := keys[|keys| - 1];
      ExtraErrors(keys[..|keys| - 1], allowed, path) + Unless(key in allowed, path + [Key(key)], Unexpected)
  }

  function TextErrors(h: Host, text: string, schema: Json, path: Path): seq<Error> {
    Unless(AtLeast(Units(text) as real, Field(schema, "minLength")), path, TooShort)
    + Unless(AtMost(Units(text) as real, Field(schema, "maxLength")), path, TooLong)
    + Unless(Fits(h, text, Field(schema, "pattern")), path, NoMatch)
  }

  function NumberErrors(n: real, schema: Json, path: Path): seq<Error> {
    Unless(AtLeast(n, Field(schema, "minimum")), path, TooSmall)
      + Unless(AtMost(n, Field(schema, "maximum")), path, TooLarge)
  }

  /** The errors of the first `n` sub-schemas. */
  function MemberErrors(h: Host, data: Json, schema: Json, path: Path, n: nat): seq<Error>
    requires n <= |SubSchemas(h, schema)|
    decreases schema, 1, n
  {
    if n == 0 then [] else MemberErrors(h, data, schema, path, n - 1) + MemberErrorsAt(h, data, schema, path, n - 1)
  }

  function ObjectErrors(h: Host, data: Json, schema: Json, path: Path): seq<Error>
    decreases schema, 2
  {
    MissingErrors(h, data, RequiredKeys(h, schema), path)
    + MemberErrors(h, data, schema, path, |SubSchemas(h, schema)|)
    + if Closed(schema) then ExtraErrors(KeyNames(h, data), KeyNames(h, Field(schema, "properties")), path) else []
  }

  function ItemErrors(h: Host, items: seq<Json>, schema: Json, path: Path, n: nat): seq<Error>
    requires n <= |items|
    decreases schema, 5, n
  {
    if n == 0 then []
    else ItemErrors(h, items, schema, path, n - 1) + Errors(h, items[n - 1], schema, path + [Index(n - 1)])
  }

  function ArrayErrors(h: Host, items: seq<Json>, schema: Json, path: Path): seq<Error>
    decreases schema, 2
  {
    (if Truthy(Field(schema, "items")) then ItemErrors(h, items, Field(schema, "items"), path, |items|) else [])
    + Unless(AtLeast(|items| as real, Field(schema, "minItems")), path, TooFewItems)
    + Unless(AtMost(|items| as real, Field(schema, "maxItems")), path, TooManyItems)
  }

  function KeywordErrors(h: Host, data: Json, schema: Json, path: Path): seq<Error>
    decreases schema, 3
  {
    if IsType(schema, "object") && data.Obj? then ObjectErrors(h, data, schema, path)
    else if IsType(schema, "array") && data.Arr? then ArrayErrors(h, data.items, schema, path)
    else if IsType(schema, "string") && data.Str? then TextErrors(h, data.s, schema, path)
    else if (IsType(schema, "number") || IsType(schema, "integer")) && data.Num? then NumberErrors(data.n, schema, path)
    else []
  }

  /** A wrong type is the only error reported for its place. */
  function Errors(h: Host, data: Json, schema: Json, path: Path): seq<Error>
    decreases schema, 4
  {
    if !TypeHolds(data, Field(schema, "type")) then [Error(path, WrongType)]
    else Unless(InEnum(data, schema), path, NotInEnum) + KeywordErrors(h, data, schema, path)
  }

  function MemberErrorsAt(h: Host, data: Json, schema: Json, path: Path, i: nat): seq<Error>
    requires i < |SubSchemas(h, schema)|
    decreases schema, 0
  {
    var (key, sub) := SubSchemas(h, schema)[i];
    if Member(h, data, key).Some? then Errors(h, Member(h, data, key).value, sub, path + [Key(key)]) else []
  }

  // ---- The walk ----

  lemma Regroup(a: seq<Error>, b: seq<Error>, c: seq<Error>)
    ensures (a + b) + c == a + (b + c)
  {
  }

  class ErrorLog {
    var errors: seq<Error>

    constructor ()
      ensures errors == []
    {
      errors := [];
    }

    method Push(path: Path, fault: Fault)
      modifies this
      ensures errors == old(errors) + [Error(path, fault)]
    {
      errors := errors + [Error(path, fault)];
    }

    method PushUnless(ok: bool, path: Path, fault: Fault)
      modifies this
      ensures errors == old(errors) + Unless(ok, path, fault)
    {
      if !ok {
        Push(path, fault);
      }
    }
  }

  method CheckEnum(data: Json, schema: Json, path: Path, log: ErrorLog)
    modifies log
    ensures log.errors == old(log.errors) + Unless(InEnum(data, schema), path, NotInEnum)
  {
    var choices := Field(schema, "enum");
    if choices.Arr? && !(exists i :: 0 <= i < |choices.items| && Same(choices.items[i], data)) {
      log.Push(path, NotInEnum);
    }
  }

  method CheckText(h: Host, text: string, schema: Json, path: Path, log: ErrorLog)
    modifies log
    ensures log.errors == old(log.errors) + TextErrors(h, text, schema, path)
  {
    log.PushUnless(AtLeast(Units(text) as real, Field(schema, "minLength")), path, TooShort);
    log.PushUnless(AtMost(Units(text) as real, Field(schema, "maxLength")), path, TooLong);
    log.PushUnless(Fits(h, text, Field(schema, "pattern")), path, NoMatch);
  }

  method CheckRequired(h: Host, data: Json, keys: seq<string>, path: Path, log: ErrorLog)
    modifies log
    ensures log.errors == old(log.errors) + MissingErrors(h, data, keys, path)
  {
    for i := 0 to |keys|
      invariant log.errors == old(log.errors) + MissingErrors(h, data, keys[..i], path)
    {
      assert keys[..i + 1][..i] == keys[..i];
      log.PushUnless(Present(h, data, keys[i]), path + [Key(keys[i])], Missing);
    }
    assert keys[..|keys|] == keys;
  }

  method ForbidExtras(keys: seq<string>, allowed: seq<string>, path: Path, log: ErrorLog)
    modifies log
    ensures log.errors == old(log.errors) + ExtraErrors(keys, allowed, path)
  {
    for i := 0 to |keys|
      invariant log.errors == old(log.errors) + ExtraErrors(keys[..i], allowed, path)
    {
      assert keys[..i + 1][..i] == keys[..i];
      log.PushUnless(keys[i] in allowed, path + [Key(keys[i])], Unexpected);
    }
    assert keys[..|keys|] == keys;
  }

  method CheckMember(h: Host, data: Json, schema: Json, path: Path, i: nat, log: ErrorLog)
    requires i < |SubSchemas(h, schema)|
    modifies log
    ensures log.errors == old(log.errors) + MemberErrorsAt(h, data, schema, path, i)
    decreases schema, 0
  {
    var (key, sub) := SubSchemas(h, schema)[i];
    var member := Member(h, data, key);
    if member.Some? {
      ValidateNode(h, member.value, sub, path + [Key(key)], log);
    }
  }

  method CheckMembers(h: Host, data: Json, schema: Json, path: Path, log: ErrorLog)
    modifies log
    ensures log.errors == old(log.errors) + MemberErrors(h, data, schema, path, |SubSchemas(h, schema)|)
    decreases schema, 1, 0
  {
    for i := 0 to |SubSchemas(h, schema)|
      invariant log.errors == old(log.errors) + MemberErrors(h, data, schema, path, i)
    {
      CheckMember(h, data, schema, path, i, log);
      Regroup(old(log.errors), MemberErrors(h, data, schema, path, i), MemberErrorsAt(h, data, schema, path, i));
    }
  }

  method CheckObject(h: Host, data: Json, schema: Json, path: Path, log: ErrorLog)
    modifies log
    ensures log.errors == old(log.errors) + ObjectErrors(h, data, schema, path)
    decreases schema, 1, 1
  {
    ghost var before := log.errors;
    CheckRequired(h, data, RequiredKeys(h, schema), path, log);
    CheckMembers(h, data, schema, path, log);
    ghost var missing := MissingErrors(h, data, RequiredKeys(h, schema), path);
    ghost var members := MemberErrors(h, data, schema, path, |SubSchemas(h, schema)|);
    Regroup(before, missing, members);
    if Closed(schema) {
      ForbidExtras(KeyNames(h, data), KeyNames(h, Field(schema, "properties")), path, log);
      Regroup(before, missing + members,
              ExtraErrors(KeyNames(h, data), KeyNames(h, Field(schema, "properties")), path));
    }
  }

  method CheckKeywords(h: Host, data: Json, schema: Json, path: Path, log: ErrorLog)
    modifies log
    ensures log.errors == old(log.errors) + KeywordErrors(h, data, schema, path)
    decreases schema, 2
  {
    if IsType(schema, "object") && data.Obj? {
      CheckObject(h, data, schema, path, log);
    } else if IsType(schema, "array") && data.Arr? {
      CheckArray(h, data.items, schema, path, log);
    } else if IsType(schema, "string") && data.Str? {
      CheckText(h, data.s, schema, path, log);
    } else if (IsType(schema, "number") || IsType(schema, "integer")) && data.Num? {
      log.PushUnless(AtLeast(data.n, Field(schema, "minimum")), path, TooSmall);
      log.PushUnless(AtMost(data.n, Field(schema, "maximum")), path, TooLarge);
    }
  }

  method ValidateNode(h: Host, data: Json, schema: Json, path: Path, log: ErrorLog)
    modifies log
    ensures log.errors == old(log.errors) + Errors(h, data, schema, path)
    decreases schema, 3
  {
    if !TypeHolds(data, Field(schema, "type")) {
      log.Push(path, WrongType);
      return;
    }
    ghost var before := log.errors;
    CheckEnum(data, schema, path, log);
    CheckKeywords(h, data, schema, path, log);
    Regroup(before, Unless(InEnum(data, schema), path, NotInEnum), KeywordErrors(h, data, schema, path));
  }

  method CheckItems(h: Host, items: seq<Json>, itemSchema: Json, path: Path, log: ErrorLog)
    modifies log
    ensures log.errors == old(log.errors) + ItemErrors(h, items, itemSchema, path, |items|)
    decreases itemSchema, 4
  {
    for i := 0 to |items|
      invariant log.errors == old(log.errors) + ItemErrors(h, items, itemSchema, path, i)
    {
      ValidateNode(h, items[i], itemSchema, path + [Index(i)], log);
      Regroup(old(log.errors), ItemErrors(h, items, itemSchema, path, i),
              Errors(h, items[i], itemSchema, path + [Index(i)]));
    }
  }

  method CheckArray(h: Host, items: seq<Json>, schema: Json, path: Path, log: ErrorLog)
    modifies log
    ensures log.errors == old(log.errors) + ArrayErrors(h, items, schema, path)
    decreases schema, 0
  {
    if Truthy(Field(schema, "items")) {
      CheckItems(h, items, Field(schema, "items"), path, log);
    }
    var count := |items| as real;
    log.PushUnless(AtLeast(count, Field(schema, "minItems")), path, TooFewItems);
    log.PushUnless(AtMost(count, Field(schema, "maxItems")), path, TooManyItems);
  }

  method Validate(h: Host, data: Json, schema: Json, path: Path) returns (valid: bool, errors: seq<Error>)
    ensures errors == Errors(h, data, schema, path)
    ensures valid <==> errors == []
  {
    var log := new ErrorLog();
    ValidateNode(h, data, schema, path, log);
    errors := log.errors;
    valid := errors == [];
  }
}
