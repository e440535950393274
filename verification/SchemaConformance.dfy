/** What the validator's errors mean: none of them exactly when the data conform, each placed below the start. */
module SchemaConformance {
  import opened Texts
  import opened Wrappers
  import opened WorkflowNodes
  import opened SchemaValidator

  lemma {:induction false} NoneMissing(h: Host, data: Json, keys: seq<string>, path: Path)
    ensures MissingErrors(h, data, keys, path) == [] <==> AllPresent(h, data, keys)
  {
    if keys != [] {
      NoneMissing(h, data, keys[..|keys| - 1], path);
    }
  }

  lemma {:induction false} NoneExtra(keys: seq<string>, allowed: seq<string>, path: Path)
    ensures ExtraErrors(keys, allowed, path) == [] <==> AllKnown(keys, allowed)
  {
    if keys != [] {
      NoneExtra(keys[..|keys| - 1], allowed, path);
    }
  }

  lemma AppendEmpty(a: seq<Error>, b: seq<Error>)
    ensures a + b == [] <==> a == [] && b == []
  {
  }

  lemma {:induction false} NoItemErrors(h: Host, items: seq<Json>, schema: Json, path: Path, n: nat)
    requires n <= |items|
    ensures ItemErrors(h, items, schema, path, n) == [] <==> forall i :: 0 <= i < n ==> Conforms(h, items[i], schema)
    decreases schema, 5, n
  {
    if n > 0 {
      NoItemErrors(h, items, schema, path, n - 1);
      ValidIffConforms(h, items[n - 1], schema, path + [Index(n - 1)]);
      AppendEmpty(ItemErrors(h, items, schema, path, n - 1), Errors(h, items[n - 1], schema, path + [Index(n - 1)]));
    }
  }

  lemma NoArrayErrors(h: Host, items: seq<Json>, schema: Json, path: Path)
    ensures ArrayErrors(h, items, schema, path) == [] <==> ArrayHolds(h, items, schema)
    decreases schema, 2
  {
    if Truthy(Field(schema, "items")) {
      NoItemErrors(h, items, Field(schema, "items"), path, |items|);
    }
  }

  lemma NoKeywordErrors(h: Host, data: Json, schema: Json, path: Path)
    ensures KeywordErrors(h, data, schema, path) == [] <==> KeywordsHold(h, data, schema)
    decreases schema, 3
  {
    if IsType(schema, "object") && data.Obj? {
      NoObjectErrors(h, data, schema, path);
    } else if IsType(schema, "array") && data.Arr? {
      NoArrayErrors(h, data.items, schema, path);
    }
  }

  /** No error is found exactly when the data satisfy the schema. */
  lemma ValidIffConforms(h: Host, data: Json, schema: Json, path: Path)
    ensures Errors(h, data, schema, path) == [] <==> Conforms(h, data, schema)
    decreases schema, 4
  {
    NoKeywordErrors(h, data, schema, path);
  }

  lemma MemberValidIff(h: Host, data: Json, schema: Json, path: Path, i: nat)
    requires i < |SubSchemas(h, schema)|
    ensures MemberErrorsAt(h, data, schema, path, i) == [] <==> MemberHolds(h, data, schema, i)
    decreases schema, 0
  {
    var (key, sub) := SubSchemas(h, schema)[i];
    if Member(h, data, key).Some? {
      ValidIffConforms(h, Member(h, data, key).value, sub, path + [Key(key)]);
    }
  }

  lemma {:induction false} NoMemberErrors(h: Host, data: Json, schema: Json, path: Path, n: nat)
    requires n <= |SubSchemas(h, schema)|
    ensures MemberErrors(h, data, schema, path, n) == [] <==> MembersHold(h, data, schema, n)
    decreases schema, 1, n
  {
    if n > 0 {
      NoMemberErrors(h, data, schema, path, n - 1);
      MemberValidIff(h, data, schema, path, n - 1);
      AppendEmpty(MemberErrors(h, data, schema, path, n - 1), MemberErrorsAt(h, data, schema, path, n - 1));
    }
  }

  lemma NoObjectErrors(h: Host, data: Json, schema: Json, path: Path)
    ensures ObjectErrors(h, data, schema, path) == [] <==> ObjectHolds(h, data, schema)
    decreases schema, 2
  {
    var keys, allowed := KeyNames(h, data), KeyNames(h, Field(schema, "properties"));
    NoneMissing(h, data, RequiredKeys(h, schema), path);
    NoMemberErrors(h, data, schema, path, |SubSchemas(h, schema)|);
    NoneExtra(keys, allowed, path);
    var missing := MissingErrors(h, data, RequiredKeys(h, schema), path);
    var members := MemberErrors(h, data, schema, path, |SubSchemas(h, schema)|);
    var extras := if Closed(schema) then ExtraErrors(keys, allowed, path) else [];
    AppendEmpty(missing, members);
    AppendEmpty(missing + members, extras);
    assert ObjectErrors(h, data, schema, path) == missing + members + extras;
  }

  /** A schema without a type, or with several types in a list, is checked for its enumeration only. */
  lemma UntypedChecksEnumOnly(h: Host, data: Json, schema: Json, path: Path)
    requires !Truthy(Field(schema, "type")) || Field(schema, "type").Arr?
    ensures Errors(h, data, schema, path) == [] <==> InEnum(data, schema)
  {
    ValidIffConforms(h, data, schema, path);
  }

  // ---- Where errors are placed ----

  /** The same errors, each below `prefix`. */
  function Under(prefix: Path, errors: seq<Error>): seq<Error> {
    if errors == [] then []
    else
      var e := errors[|errors| - 1];
      Under(prefix, errors[..|errors| - 1]) + [Error(prefix + e.path, e.fault)]
  }

  lemma {:induction false} UnderAppend(prefix: Path, a: seq<Error>, b: seq<Error>)
    ensures Under(prefix, a + b) == Under(prefix, a) + Under(prefix, b)
  {
    if b == [] {
      assert a + b == a;
    } else {
      UnderAppend(prefix, a, b[..|b| - 1]);
      assert (a + b)[..|a + b| - 1] == a + b[..|b| - 1];
    }
  }

  lemma {:induction false} UnderPlaces(prefix: Path, errors: seq<Error>)
    ensures forall e :: e in Under(prefix, errors) ==> prefix <= e.path
  {
    if errors != [] {
      UnderPlaces(prefix, errors[..|errors| - 1]);
    }
  }

  lemma UnlessUnder(prefix: Path, ok: bool, path: Path, fault: Fault)
    ensures Unless(ok, prefix + path, fault) == Under(prefix, Unless(ok, path, fault))
  {
    assert Under(prefix, []) == [];
    assert [Error(path, fault)][..0] == [];
  }

  lemma UnlessUnderStep(prefix: Path, ok: bool, path: Path, s: Segment, fault: Fault)
    ensures Unless(ok, prefix + path + [s], fault) == Under(prefix, Unless(ok, path + [s], fault))
  {
    assert prefix + path + [s] == prefix + (path + [s]);
    UnlessUnder(prefix, ok, path + [s], fault);
  }

  lemma {:induction false} MissingUnder(h: Host, data: Json, keys: seq<string>, prefix: Path, path: Path)
    ensures MissingErrors(h, data, keys, prefix + path) == Under(prefix, MissingErrors(h, data, keys, path))
  {
    if keys != [] {
      var key, rest := keys[|keys| - 1], keys[..|keys| - 1];
      MissingUnder(h, data, rest, prefix, path);
      UnlessUnderStep(prefix, Present(h, data, key), path, Key(key), Missing);
      UnderAppend(prefix, MissingErrors(h, data, rest, path),
                  Unless(Present(h, data, key), path + [Key(key)], Missing));
    }
  }

  lemma {:induction false} ExtraUnder(keys: seq<string>, allowed: seq<string>, prefix: Path, path: Path)
    ensures ExtraErrors(keys, allowed, prefix + path) == Under(prefix, ExtraErrors(keys, allowed, path))
  {
    if keys != [] {
      var key, rest := keys[|keys| - 1], keys[..|keys| - 1];
      ExtraUnder(rest, allowed, prefix, path);
      UnlessUnderStep(prefix, key in allowed, path, Key(key), Unexpected);
      UnderAppend(prefix, ExtraErrors(rest, allowed, path), Unless(key in allowed, path + [Key(key)], Unexpected));
    }
  }

  lemma ThreeUnder(prefix: Path, a: seq<Error>, b: seq<Error>, c: seq<Error>)
    ensures Under(prefix, a + b + c) == Under(prefix, a) + Under(prefix, b) + Under(prefix, c)
  {
    UnderAppend(prefix, a + b, c);
    UnderAppend(prefix, a, b);
  }

  lemma TextUnder(h: Host, text: string, schema: Json, prefix: Path, path: Path)
    ensures TextErrors(h, text, schema, prefix + path) == Under(prefix, TextErrors(h, text, schema, path))
  {
    var few, many, fits := AtLeast(Units(text) as real, Field(schema, "minLength")),
        AtMost(Units(text) as real, Field(schema, "maxLength")), Fits(h, text, Field(schema, "pattern"));
    UnlessUnder(prefix, few, path, TooShort);
    UnlessUnder(prefix, many, path, TooLong);
    UnlessUnder(prefix, fits, path, NoMatch);
    ThreeUnder(prefix, Unless(few, path, TooShort), Unless(many, path, TooLong), Unless(fits, path, NoMatch));
  }

  lemma NumberUnder(n: real, schema: Json, prefix: Path, path: Path)
    ensures NumberErrors(n, schema, prefix + path) == Under(prefix, NumberErrors(n, schema, path))
  {
    var few, many := AtLeast(n, Field(schema, "minimum")), AtMost(n, Field(schema, "maximum"));
    UnlessUnder(prefix, few, path, TooSmall);
    UnlessUnder(prefix, many, path, TooLarge);
    UnderAppend(prefix, Unless(few, path, TooSmall), Unless(many, path, TooLarge));
  }

  lemma ObjectUnder(h: Host, data: Json, schema: Json, prefix: Path, path: Path)
    ensures ObjectErrors(h, data, schema, prefix + path) == Under(prefix, ObjectErrors(h, data, schema, path))
    decreases schema, 2
  {
    var n, keys, allowed := |SubSchemas(h, schema)|, KeyNames(h, data), KeyNames(h, Field(schema, "properties"));
    MissingUnder(h, data, RequiredKeys(h, schema), prefix, path);
    MembersUnder(h, data, schema, prefix, path, n);
    ExtraUnder(keys, allowed, prefix, path);
    var missing, members := MissingErrors(h, data, RequiredKeys(h, schema), path),
      MemberErrors(h, data, schema, path, n);
    UnderAppend(prefix, missing, members);
    UnderAppend(prefix, missing + members, if Closed(schema) then ExtraErrors(keys, allowed, path) else []);
  }

  lemma {:induction false} ItemsUnder(h: Host, items: seq<Json>, schema: Json, prefix: Path, path: Path, n: nat)
    requires n <= |items|
    ensures ItemErrors(h, items, schema, prefix + path, n) == Under(prefix, ItemErrors(h, items, schema, path, n))
    decreases schema, 5, n
  {
    if n > 0 {
      ItemsUnder(h, items, schema, prefix, path, n - 1);
      ErrorsUnder(h, items[n - 1], schema, prefix, path + [Index(n - 1)]);
      assert prefix + (path + [Index(n - 1)]) == prefix + path + [Index(n - 1)];
      UnderAppend(prefix, ItemErrors(h, items, schema, path, n - 1),
                  Errors(h, items[n - 1], schema, path + [Index(n - 1)]));
    }
  }

  lemma ArrayUnder(h: Host, items: seq<Json>, schema: Json, prefix: Path, path: Path)
    ensures ArrayErrors(h, items, schema, prefix + path) == Under(prefix, ArrayErrors(h, items, schema, path))
    decreases schema, 2
  {
    var itemSchema := Field(schema, "items");
    var few := AtLeast(|items| as real, Field(schema, "minItems"));
    var many := AtMost(|items| as real, Field(schema, "maxItems"));
    if Truthy(itemSchema) {
      ItemsUnder(h, items, itemSchema, prefix, path, |items|);
    }
    UnlessUnder(prefix, few, path, TooFewItems);
    UnlessUnder(prefix, many, path, TooManyItems);
    ThreeUnder(prefix, if Truthy(itemSchema) then ItemErrors(h, items, itemSchema, path, |items|) else [],
               Unless(few, path, TooFewItems), Unless(many, path, TooManyItems));
  }

  lemma KeywordsUnder(h: Host, data: Json, schema: Json, prefix: Path, path: Path)
    ensures KeywordErrors(h, data, schema, prefix + path) == Under(prefix, KeywordErrors(h, data, schema, path))
    decreases schema, 3
  {
    if IsType(schema, "object") && data.Obj? {
      ObjectUnder(h, data, schema, prefix, path);
    } else if IsType(schema, "array") && data.Arr? {
      ArrayUnder(h, data.items, schema, prefix, path);
    } else if IsType(schema, "string") && data.Str? {
      TextUnder(h, data.s, schema, prefix, path);
    } else if (IsType(schema, "number") || IsType(schema, "integer")) && data.Num? {
      NumberUnder(data.n, schema, prefix, path);
    }
  }

  /** Which errors are found does not depend on the starting path; it is only put in front of their places. */
  lemma {:induction false} ErrorsUnder(h: Host, data: Json, schema: Json, prefix: Path, path: Path)
    ensures Errors(h, data, schema, prefix + path) == Under(prefix, Errors(h, data, schema, path))
    decreases schema, 4
  {
    var typeOk, enumOk := TypeHolds(data, Field(schema, "type")), InEnum(data, schema);
    UnlessUnder(prefix, typeOk, path, WrongType);
    UnlessUnder(prefix, enumOk, path, NotInEnum);
    KeywordsUnder(h, data, schema, prefix, path);
    UnderAppend(prefix, Unless(enumOk, path, NotInEnum), KeywordErrors(h, data, schema, path));
  }

  lemma MemberAtUnder(h: Host, data: Json, schema: Json, prefix: Path, path: Path, i: nat)
    requires i < |SubSchemas(h, schema)|
    ensures MemberErrorsAt(h, data, schema, prefix + path, i) == Under(prefix, MemberErrorsAt(h, data, schema, path, i))
    decreases schema, 0
  {
    var (key, sub) := SubSchemas(h, schema)[i];
    if Member(h, data, key).Some? {
      ErrorsUnder(h, Member(h, data, key).value, sub, prefix, path + [Key(key)]);
      assert prefix + (path + [Key(key)]) == prefix + path + [Key(key)];
    }
  }

  lemma {:induction false} MembersUnder(h: Host, data: Json, schema: Json, prefix: Path, path: Path, n: nat)
    requires n <= |SubSchemas(h, schema)|
    ensures MemberErrors(h, data, schema, prefix + path, n) == Under(prefix, MemberErrors(h, data, schema, path, n))
    decreases schema, 1, n
  {
    if n > 0 {
      MembersUnder(h, data, schema, prefix, path, n - 1);
      MemberAtUnder(h, data, schema, prefix, path, n - 1);
      UnderAppend(prefix, MemberErrors(h, data, schema, path, n - 1), MemberErrorsAt(h, data, schema, path, n - 1));
    }
  }

  /** Every error is placed at or below the starting path. */
  lemma ErrorsExtendPath(h: Host, data: Json, schema: Json, path: Path)
    ensures forall e :: e in Errors(h, data, schema, path) ==> path <= e.path
  {
    ErrorsUnder(h, data, schema, path, []);
    assert path + [] == path;
    UnderPlaces(path, Errors(h, data, schema, []));
  }
}
