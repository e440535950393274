/** What the validator reports, place by place: an error of a kind at a place, exactly where it belongs. */
module SchemaFaults {
  import opened Texts
  import opened Wrappers
  import opened WorkflowNodes
  import opened SchemaValidator
  import opened SchemaConformance

  predicate IsNumberType(schema: Json) {
    IsType(schema, "number") || IsType(schema, "integer")
  }

  /** What is wrong with a value itself; its members and items aside. */
  predicate OwnFault(h: Host, data: Json, schema: Json, fault: Fault) {
    match fault
    case WrongType => !TypeHolds(data, Field(schema, "type"))
    case NotInEnum => TypeHolds(data, Field(schema, "type")) && !InEnum(data, schema)
    case TooFewItems =>
      IsType(schema, "array") && data.Arr? && !AtLeast(|data.items| as real, Field(schema, "minItems"))
    case TooManyItems =>
      IsType(schema, "array") && data.Arr? && !AtMost(|data.items| as real, Field(schema, "maxItems"))
    case TooShort =>
      IsType(schema, "string") && data.Str? && !AtLeast(Units(data.s) as real, Field(schema, "minLength"))
    case TooLong =>
      IsType(schema, "string") && data.Str? && !AtMost(Units(data.s) as real, Field(schema, "maxLength"))
    case NoMatch => IsType(schema, "string") && data.Str? && !Fits(h, data.s, Field(schema, "pattern"))
    case TooSmall =>
      && IsNumberType(schema) && data.Num? && TypeHolds(data, Field(schema, "type"))
      && !AtLeast(data.n, Field(schema, "minimum"))
    case TooLarge =>
      && IsNumberType(schema) && data.Num? && TypeHolds(data, Field(schema, "type"))
      && !AtMost(data.n, Field(schema, "maximum"))
    case Missing => false
    case Unexpected => false
  }

  /** What is wrong with the keys of an object. */
  predicate KeyFault(h: Host, data: Json, schema: Json, key: string, fault: Fault) {
    && IsType(schema, "object") && data.Obj?
    && match fault
       case Missing => key in RequiredKeys(h, schema) && !Present(h, data, key)
       case Unexpected =>
         Closed(schema) && key in KeyNames(h, data) && key !in KeyNames(h, Field(schema, "properties"))
       case _ => false
  }

  /**
   A fault of this kind belongs at the place, counted from the value: the value's own, a key's, that of a
   member against one of its sub-schemas, or that of an item.
   */
  ghost predicate FaultAt(h: Host, data: Json, schema: Json, place: Path, fault: Fault)
    decreases |place|
  {
    if place == [] then OwnFault(h, data, schema, fault)
    else
      match place[0]
      case Key(key) =>
        && IsType(schema, "object") && data.Obj?
        && ((|place| == 1 && KeyFault(h, data, schema, key, fault))
            || (Member(h, data, key).Some?
                && var subs := SubSchemas(h, schema);
                   exists i :: 0 <= i < |subs| && subs[i].0 == key
                               && FaultAt(h, Member(h, data, key).value, subs[i].1, place[1..], fault)))
      case Index(i) =>
        && IsType(schema, "array") && data.Arr? && i < |data.items| && Truthy(Field(schema, "items"))
        && FaultAt(h, data.items[i], Field(schema, "items"), place[1..], fault)
  }

  /** Sub-schema number `i` is the key's, and the member has the fault against it. */
  ghost predicate FaultOfMember(h: Host, data: Json, schema: Json, key: string, i: nat, rest: Path, fault: Fault) {
    && i < |SubSchemas(h, schema)| && SubSchemas(h, schema)[i].0 == key && Member(h, data, key).Some?
    && FaultAt(h, Member(h, data, key).value, SubSchemas(h, schema)[i].1, rest, fault)
  }

  lemma FaultOfObject(h: Host, data: Json, schema: Json, key: string, place: Path, fault: Fault)
    requires IsType(schema, "object") && data.Obj? && place != [] && place[0] == Key(key)
    ensures FaultAt(h, data, schema, place, fault) <==>
            (|place| == 1 && KeyFault(h, data, schema, key, fault))
            || exists i: nat :: FaultOfMember(h, data, schema, key, i, place[1..], fault)
  {
    if i: nat :| FaultOfMember(h, data, schema, key, i, place[1..], fault) {
      assert SubSchemas(h, schema)[i].0 == key;
    }
    if FaultAt(h, data, schema, place, fault) && !(|place| == 1 && KeyFault(h, data, schema, key, fault)) {
      var i :| 0 <= i < |SubSchemas(h, schema)| && SubSchemas(h, schema)[i].0 == key
               && FaultAt(h, Member(h, data, key).value, SubSchemas(h, schema)[i].1, place[1..], fault);
      assert FaultOfMember(h, data, schema, key, i, place[1..], fault);
    }
  }

  // ---- The parts of the error list ----

  lemma {:induction false} MissingListed(h: Host, data: Json, keys: seq<string>, path: Path, e: Error)
    ensures e in MissingErrors(h, data, keys, path)
            <==> exists k :: k in keys && !Present(h, data, k) && e == Error(path + [Key(k)], Missing)
  {
    if keys != [] {
      MissingListed(h, data, keys[..|keys| - 1], path, e);
      assert keys == keys[..|keys| - 1] + [keys[|keys| - 1]];
    }
  }

  lemma {:induction false} ExtraListed(keys: seq<string>, allowed: seq<string>, path: Path, e: Error)
    ensures e in ExtraErrors(keys, allowed, path)
            <==> exists k :: k in keys && k !in allowed && e == Error(path + [Key(k)], Unexpected)
  {
    if keys != [] {
      ExtraListed(keys[..|keys| - 1], allowed, path, e);
      assert keys == keys[..|keys| - 1] + [keys[|keys| - 1]];
    }
  }

  ghost predicate OfMember(h: Host, data: Json, schema: Json, path: Path, i: nat, e: Error) {
    i < |SubSchemas(h, schema)| && e in MemberErrorsAt(h, data, schema, path, i)
  }

  lemma {:induction false} MembersListed(h: Host, data: Json, schema: Json, path: Path, n: nat, e: Error)
    requires n <= |SubSchemas(h, schema)|
    ensures e in MemberErrors(h, data, schema, path, n)
            <==> exists i: nat :: i < n && OfMember(h, data, schema, path, i, e)
  {
    if n > 0 {
      MembersListed(h, data, schema, path, n - 1, e);
      assert e in MemberErrorsAt(h, data, schema, path, n - 1) <==> OfMember(h, data, schema, path, n - 1, e);
    }
  }

  ghost predicate OfItem(h: Host, items: seq<Json>, schema: Json, path: Path, i: nat, e: Error) {
    i < |items| && e in Errors(h, items[i], schema, path + [Index(i)])
  }

  lemma LastItem(h: Host, items: seq<Json>, schema: Json, path: Path, n: nat, e: Error)
    requires 0 < n <= |items|
    ensures e in ItemErrors(h, items, schema, path, n)
            <==> e in ItemErrors(h, items, schema, path, n - 1) || OfItem(h, items, schema, path, n - 1, e)
  {
  }

  lemma {:induction false} ItemsListed(h: Host, items: seq<Json>, schema: Json, path: Path, n: nat, e: Error)
    requires n <= |items|
    ensures e in ItemErrors(h, items, schema, path, n)
            <==> exists i: nat :: i < n && OfItem(h, items, schema, path, i, e)
  {
    if n > 0 {
      ItemsListed(h, items, schema, path, n - 1, e);
      LastItem(h, items, schema, path, n, e);
    }
  }

  lemma BelowSegment(h: Host, data: Json, schema: Json, path: Path, s: Segment, place: Path, fault: Fault)
    requires Error(path + place, fault) in Errors(h, data, schema, path + [s])
    ensures place != [] && place[0] == s
  {
    ErrorsExtendPath(h, data, schema, path + [s]);
    assert (path + [s])[|path|] == s && |path + [s]| <= |path + place|;
    assert (path + place)[|path|] == s;
  }

  // ---- Each kind of value ----

  lemma HereOnly(path: Path, place: Path)
    ensures path + place == path <==> place == []
  {
    assert |path + place| == |path| + |place|;
  }

  /** What the keywords of the type find: everything that is wrong, but for the enumeration. */
  ghost predicate Found(h: Host, data: Json, schema: Json, place: Path, fault: Fault) {
    FaultAt(h, data, schema, place, fault) && (place == [] ==> fault != NotInEnum)
  }

  lemma NoMember(h: Host, data: Json, schema: Json, path: Path, place: Path, fault: Fault)
    requires place == [] || !place[0].Key?
    ensures !exists i: nat :: OfMember(h, data, schema, path, i, Error(path + place, fault))
    decreases |place|, 1
  {
    forall i: nat | i < |SubSchemas(h, schema)|
      ensures !OfMember(h, data, schema, path, i, Error(path + place, fault))
    {
      MemberReported(h, data, schema, path, i, place, fault);
    }
  }

  lemma MembersReported(h: Host, data: Json, schema: Json, path: Path, place: Path, fault: Fault)
    ensures Error(path + place, fault) in MemberErrors(h, data, schema, path, |SubSchemas(h, schema)|)
            <==> place != [] && place[0].Key?
                 && exists i: nat :: FaultOfMember(h, data, schema, place[0].key, i, place[1..], fault)
    decreases |place|, 2
  {
    MembersListed(h, data, schema, path, |SubSchemas(h, schema)|, Error(path + place, fault));
    if place != [] && place[0].Key? {
      SomeMember(h, data, schema, path, place[0].key, place, fault);
    } else {
      NoMember(h, data, schema, path, place, fault);
    }
  }

  lemma SameKey(path: Path, place: Path, k: string)
    ensures path + place == path + [Key(k)] <==> place == [Key(k)]
  {
    assert (path + place)[|path|..] == place && (path + [Key(k)])[|path|..] == [Key(k)];
  }

  lemma MissingReported(h: Host, data: Json, keys: seq<string>, path: Path, place: Path, fault: Fault)
    ensures Error(path + place, fault) in MissingErrors(h, data, keys, path)
            <==> fault == Missing && exists k :: k in keys && !Present(h, data, k) && place == [Key(k)]
  {
    MissingListed(h, data, keys, path, Error(path + place, fault));
    forall k
      ensures path + place == path + [Key(k)] <==> place == [Key(k)]
    {
      SameKey(path, place, k);
    }
  }

  lemma ExtraReported(keys: seq<string>, allowed: seq<string>, path: Path, place: Path, fault: Fault)
    ensures Error(path + place, fault) in ExtraErrors(keys, allowed, path)
            <==> fault == Unexpected && exists k :: k in keys && k !in allowed && place == [Key(k)]
  {
    ExtraListed(keys, allowed, path, Error(path + place, fault));
    forall k
      ensures path + place == path + [Key(k)] <==> place == [Key(k)]
    {
      SameKey(path, place, k);
    }
  }

  lemma KeysReported(h: Host, data: Json, schema: Json, path: Path, place: Path, fault: Fault)
    requires IsType(schema, "object") && data.Obj?
    ensures var allowed := KeyNames(h, Field(schema, "properties"));
            var e := Error(path + place, fault);
            e in MissingErrors(h, data, RequiredKeys(h, schema), path)
            || (Closed(schema) && e in ExtraErrors(KeyNames(h, data), allowed, path))
            <==> |place| == 1 && place[0].Key? && KeyFault(h, data, schema, place[0].key, fault)
  {
    MissingReported(h, data, RequiredKeys(h, schema), path, place, fault);
    ExtraReported(KeyNames(h, data), KeyNames(h, Field(schema, "properties")), path, place, fault);
    if |place| == 1 && place[0].Key? {
      assert place == [Key(place[0].key)];
    }
  }

  lemma ObjectReported(h: Host, data: Json, schema: Json, path: Path, place: Path, fault: Fault)
    requires IsType(schema, "object") && data.Obj?
    ensures Error(path + place, fault) in ObjectErrors(h, data, schema, path)
            <==> place != [] && FaultAt(h, data, schema, place, fault)
    decreases |place|, 3
  {
    MembersReported(h, data, schema, path, place, fault);
    KeysReported(h, data, schema, path, place, fault);
    if place != [] && place[0].Key? {
      FaultOfObject(h, data, schema, place[0].key, place, fault);
    }
  }

  lemma ObjectFound(h: Host, data: Json, schema: Json, path: Path, place: Path, fault: Fault)
    requires IsType(schema, "object") && data.Obj?
    ensures Error(path + place, fault) in KeywordErrors(h, data, schema, path) <==> Found(h, data, schema, place, fault)
    decreases |place|, 4
  {
    ObjectReported(h, data, schema, path, place, fault);
  }

  lemma ItemReported(h: Host, items: seq<Json>, schema: Json, path: Path, i: nat, place: Path, fault: Fault)
    requires i < |items|
    ensures OfItem(h, items, schema, path, i, Error(path + place, fault))
            <==> place != [] && place[0] == Index(i) && FaultAt(h, items[i], schema, place[1..], fault)
    decreases |place|, 0
  {
    if Error(path + place, fault) in Errors(h, items[i], schema, path + [Index(i)]) {
      BelowSegment(h, items[i], schema, path, Index(i), place, fault);
    }
    if place != [] && place[0] == Index(i) {
      assert (path + [Index(i)]) + place[1..] == path + place;
      Reported(h, items[i], schema, path + [Index(i)], place[1..], fault);
    }
  }

  lemma ItemsReported(h: Host, items: seq<Json>, schema: Json, path: Path, place: Path, fault: Fault)
    ensures Error(path + place, fault) in ItemErrors(h, items, schema, path, |items|)
            <==> place != [] && place[0].Index? && place[0].index < |items|
                 && FaultAt(h, items[place[0].index], schema, place[1..], fault)
    decreases |place|, 1
  {
    ItemsListed(h, items, schema, path, |items|, Error(path + place, fault));
    forall i: nat | i < |items|
      ensures OfItem(h, items, schema, path, i, Error(path + place, fault))
              <==> place != [] && place[0] == Index(i) && FaultAt(h, items[i], schema, place[1..], fault)
    {
      ItemReported(h, items, schema, path, i, place, fault);
    }
  }

  lemma ArrayReported(h: Host, data: Json, schema: Json, path: Path, place: Path, fault: Fault)
    requires IsType(schema, "array") && data.Arr?
    ensures Error(path + place, fault) in ArrayErrors(h, data.items, schema, path)
            <==> FaultAt(h, data, schema, place, fault) && (place == [] ==> fault in {TooFewItems, TooManyItems})
    decreases |place|, 2
  {
    ItemsReported(h, data.items, Field(schema, "items"), path, place, fault);
    HereOnly(path, place);
  }

  lemma ArrayFound(h: Host, data: Json, schema: Json, path: Path, place: Path, fault: Fault)
    requires IsType(schema, "array") && data.Arr?
    ensures Error(path + place, fault) in KeywordErrors(h, data, schema, path) <==> Found(h, data, schema, place, fault)
    decreases |place|, 3
  {
    ArrayReported(h, data, schema, path, place, fault);
  }

  lemma TextReported(h: Host, data: Json, schema: Json, path: Path, place: Path, fault: Fault)
    requires IsType(schema, "string") && data.Str?
    ensures Error(path + place, fault) in TextErrors(h, data.s, schema, path)
            <==> place == [] && fault in {TooShort, TooLong, NoMatch} && OwnFault(h, data, schema, fault)
  {
    HereOnly(path, place);
  }

  lemma NumberReported(h: Host, data: Json, schema: Json, path: Path, place: Path, fault: Fault)
    requires IsNumberType(schema) && data.Num? && TypeHolds(data, Field(schema, "type"))
    ensures Error(path + place, fault) in NumberErrors(data.n, schema, path)
            <==> place == [] && fault in {TooSmall, TooLarge} && OwnFault(h, data, schema, fault)
  {
    HereOnly(path, place);
  }

  /** Values without members and items. */
  lemma LeafReported(h: Host, data: Json, schema: Json, path: Path, place: Path, fault: Fault)
    requires !(IsType(schema, "object") && data.Obj?) && !(IsType(schema, "array") && data.Arr?)
    requires TypeHolds(data, Field(schema, "type"))
    ensures Error(path + place, fault) in KeywordErrors(h, data, schema, path)
            <==> place == [] && OwnFault(h, data, schema, fault) && fault != NotInEnum
  {
    if IsType(schema, "string") && data.Str? {
      TextReported(h, data, schema, path, place, fault);
    } else if IsNumberType(schema) && data.Num? {
      NumberReported(h, data, schema, path, place, fault);
    }
  }

  lemma NothingWithin(h: Host, data: Json, schema: Json, place: Path, fault: Fault)
    requires !(IsType(schema, "object") && data.Obj?) && !(IsType(schema, "array") && data.Arr?)
    ensures FaultAt(h, data, schema, place, fault) <==> place == [] && OwnFault(h, data, schema, fault)
  {
  }

  lemma LeafFound(h: Host, data: Json, schema: Json, path: Path, place: Path, fault: Fault)
    requires !(IsType(schema, "object") && data.Obj?) && !(IsType(schema, "array") && data.Arr?)
    requires TypeHolds(data, Field(schema, "type"))
    ensures Error(path + place, fault) in KeywordErrors(h, data, schema, path) <==> Found(h, data, schema, place, fault)
  {
    LeafReported(h, data, schema, path, place, fault);
    NothingWithin(h, data, schema, place, fault);
  }

  lemma KeywordsReported(h: Host, data: Json, schema: Json, path: Path, place: Path, fault: Fault)
    requires TypeHolds(data, Field(schema, "type"))
    ensures Error(path + place, fault) in KeywordErrors(h, data, schema, path) <==> Found(h, data, schema, place, fault)
    decreases |place|, 5
  {
    if IsType(schema, "object") && data.Obj? {
      ObjectFound(h, data, schema, path, place, fault);
    } else if IsType(schema, "array") && data.Arr? {
      ArrayFound(h, data, schema, path, place, fault);
    } else {
      LeafFound(h, data, schema, path, place, fault);
    }
  }

  /** An error of a kind is reported for a place exactly if that place is at fault in that way. */
  lemma {:induction false} Reported(h: Host, data: Json, schema: Json, path: Path, place: Path, fault: Fault)
    ensures Error(path + place, fault) in Errors(h, data, schema, path) <==> FaultAt(h, data, schema, place, fault)
    decreases |place|, 6
  {
    HereOnly(path, place);
    if TypeHolds(data, Field(schema, "type")) {
      KeywordsReported(h, data, schema, path, place, fault);
    }
  }

  lemma MemberReported(h: Host, data: Json, schema: Json, path: Path, i: nat, place: Path, fault: Fault)
    requires i < |SubSchemas(h, schema)|
    ensures OfMember(h, data, schema, path, i, Error(path + place, fault))
            <==> place != [] && place[0].Key? && FaultOfMember(h, data, schema, place[0].key, i, place[1..], fault)
    decreases |place|, 0
  {
    var (key, sub) := SubSchemas(h, schema)[i];
    if Member(h, data, key).Some? {
      var v := Member(h, data, key).value;
      if Error(path + place, fault) in Errors(h, v, sub, path + [Key(key)]) {
        BelowSegment(h, v, sub, path, Key(key), place, fault);
      }
      if place != [] && place[0] == Key(key) {
        assert (path + [Key(key)]) + place[1..] == path + place;
        Reported(h, v, sub, path + [Key(key)], place[1..], fault);
      }
    }
  }

  lemma SomeMember(h: Host, data: Json, schema: Json, path: Path, key: string, place: Path, fault: Fault)
    requires place != [] && place[0] == Key(key)
    ensures (exists i: nat :: OfMember(h, data, schema, path, i, Error(path + place, fault)))
            <==> exists i: nat :: FaultOfMember(h, data, schema, key, i, place[1..], fault)
    decreases |place|, 1
  {
    var e := Error(path + place, fault);
    if i: nat :| FaultOfMember(h, data, schema, key, i, place[1..], fault) {
      MemberReported(h, data, schema, path, i, place, fault);
      assert OfMember(h, data, schema, path, i, e);
    }
    if i: nat :| OfMember(h, data, schema, path, i, e) {
      MemberReported(h, data, schema, path, i, place, fault);
      assert FaultOfMember(h, data, schema, key, i, place[1..], fault);
    }
  }
}
