/** What each keyword of a schema accepts, said of the values alone. */
module SchemaKeywords {
  import opened Texts
  import opened Wrappers
  import opened WorkflowNodes
  import opened SchemaValidator

  ghost predicate Falsy(v: Json) {
    v in {Undefined, Null, Bool(false), Num(0.0), Str("")}
  }

  lemma TruthyMeans(v: Json)
    ensures Truthy(v) <==> !Falsy(v)
  {
  }

  /** The first entry with the key. */
  ghost predicate FirstAt(entries: seq<(string, Json)>, key: string, i: int) {
    0 <= i < |entries| && entries[i].0 == key && forall j :: 0 <= j < i ==> entries[j].0 != key
  }

  lemma {:induction false} LookupMeans(entries: seq<(string, Json)>, key: string)
    ensures match Lookup(entries, key)
            case Some(v) => exists i :: FirstAt(entries, key, i) && entries[i].1 == v
            case None => forall i :: 0 <= i < |entries| ==> entries[i].0 != key
  {
    if entries != [] && entries[0].0 != key {
      LookupMeans(entries[1..], key);
      forall i | 0 <= i < |entries| - 1
        ensures entries[1..][i] == entries[i + 1]
      {
      }
      if Lookup(entries, key).Some? {
        var i :| FirstAt(entries[1..], key, i) && entries[1..][i].1 == Lookup(entries, key).value;
        assert FirstAt(entries, key, i + 1) by {
          assert forall j :: 0 < j < i + 1 ==> entries[j] == entries[1..][j - 1];
        }
      } else {
        assert forall i :: 0 < i < |entries| ==> entries[i] == entries[1..][i - 1];
      }
    } else if entries != [] {
      assert FirstAt(entries, key, 0);
    }
  }

  /** A keyword is an own member of a schema object; other schemas have none. */
  lemma FieldMeans(schema: Json, key: string)
    ensures schema.Obj? ==>
              var found := Lookup(schema.entries, key);
              Field(schema, key) == if found.Some? then found.value else Undefined
    ensures !schema.Obj? ==> Field(schema, key) == Undefined
  {
  }

  /** The kinds of value that a type name stands for. */
  ghost predicate OfType(data: Json, name: string) {
    match data
    case Undefined => false
    case Null => name == "null"
    case Bool(_) => name == "boolean"
    case Num(n) => name == "number" || (name == "integer" && n.Floor as real == n)
    case Str(_) => name == "string"
    case Arr(_) => name == "array"
    case Obj(_) => name == "object"
  }

  ghost predicate KnownType(name: string) {
    name in {"object", "array", "string", "number", "integer", "boolean", "null"}
  }

  /** A type keyword rejects exactly the values of other kinds, and only if it is one of the known names. */
  lemma TypeMeans(data: Json, t: Json)
    ensures TypeHolds(data, t) <==> !(t.Str? && KnownType(t.s)) || OfType(data, t.s)
  {
  }

  /** A bound that is no number bounds nothing. */
  lemma BoundsMean(n: real, bound: Json)
    ensures !AtLeast(n, bound) <==> bound.Num? && n < bound.n
    ensures !AtMost(n, bound) <==> bound.Num? && n > bound.n
  {
  }

  /** An enumeration rejects what is none of its choices; arrays and objects are never one of them. */
  lemma EnumMeans(data: Json, schema: Json)
    ensures !InEnum(data, schema) <==>
            Field(schema, "enum").Arr? && (data.Arr? || data.Obj? || data !in Field(schema, "enum").items)
  {
  }

  /** A pattern rejects what it does not match; an empty one, or one that does not compile, nothing. */
  lemma PatternMeans(h: Host, text: string, pattern: Json)
    ensures !Fits(h, text, pattern) <==> !Falsy(pattern) && h.matches(pattern, text) == Some(false)
  {
    TruthyMeans(pattern);
  }

  /** A required member is there as the data's own, or inherited, and is neither null nor undefined. */
  lemma PresenceMeans(h: Host, data: Json, key: string)
    ensures data.Obj? && Lookup(data.entries, key).Some? ==>
              (Present(h, data, key) <==> Lookup(data.entries, key).value !in {Undefined, Null})
    ensures !(data.Obj? && Lookup(data.entries, key).Some?) ==>
              (Present(h, data, key) <==>
               h.inherited(data, key).Some? && h.inherited(data, key).value !in {Undefined, Null})
  {
  }

  /** What is required: the texts of the entries of an array, and nothing otherwise. */
  lemma RequiredMeans(h: Host, schema: Json, key: string)
    ensures key in RequiredKeys(h, schema) <==>
            Field(schema, "required").Arr?
            && exists v :: v in Field(schema, "required").items && key == if v.Str? then v.s else h.keyText(v)
  {
    var required := Field(schema, "required");
    if required.Arr? {
      forall v | v in required.items
        ensures (if v.Str? then v.s else h.keyText(v)) in RequiredKeys(h, schema)
      {
        var i :| 0 <= i < |required.items| && required.items[i] == v;
        assert RequiredKeys(h, schema)[i] == KeyOf(h, v);
      }
    }
  }

  /** Extra members are refused only where the keyword is false and there are properties. */
  lemma ClosedMeans(schema: Json)
    ensures Closed(schema) <==>
            Field(schema, "additionalProperties") == Bool(false) && !Falsy(Field(schema, "properties"))
  {
    TruthyMeans(Field(schema, "properties"));
  }

  /** The keys of an object or array, and the positions of a text. */
  lemma KeyNamesMean(h: Host, v: Json, key: string)
    ensures key in KeyNames(h, v) <==>
            match v
            case Obj(entries) => exists i :: 0 <= i < |entries| && entries[i].0 == key
            case Arr(items) => exists i: nat :: i < |items| && h.indexText(i) == key
            case Str(s) => exists i: nat :: i < Units(s) && h.indexText(i) == key
            case _ => false
  {
    match v {
      case Arr(items) =>
        forall i: nat | i < |items|
          ensures KeyNames(h, v)[i] == h.indexText(i)
        {
        }
      case Str(s) =>
        forall i: nat | i < Units(s)
          ensures KeyNames(h, v)[i] == h.indexText(i)
        {
        }
      case Obj(entries) =>
        forall i | 0 <= i < |entries|
          ensures KeyNames(h, v)[i] == entries[i].0
        {
        }
      case _ =>
    }
  }
}
