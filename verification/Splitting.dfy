/** `String.split` by a delimiter, and why it can be done chunk by chunk. */
module Splitting {

  predicate At(s: string, d: string, i: int) {
    0 <= i && i + |d| <= |s| && s[i..i + |d|] == d
  }

  /** An occurrence at a place: what comes before it is as long as the place says. */
  lemma AtMeans(s: string, d: string, i: nat)
    ensures At(s, d, i) <==> exists a: string, b: string :: |a| == i && s == a + d + b
  {
    if At(s, d, i) {
      assert s == s[..i] + d + s[i + |d|..];
    }
  }

  ghost predicate Contains(s: string, d: string) {
    exists i :: At(s, d, i)
  }

  ghost predicate First(s: string, d: string, i: int) {
    At(s, d, i) && forall j :: j < i ==> !At(s, d, j)
  }

  /** The first occurrence of `d` at or after `from`, or the length of `s` if there is none. */
  function Find(s: string, d: string, from: nat): (i: nat)
    requires d != [] && from <= |s|
    ensures from <= i <= |s|
    ensures forall j :: from <= j < i ==> !At(s, d, j)
    ensures i < |s| ==> At(s, d, i)
    decreases |s| - from
  {
    if from == |s| || At(s, d, from) then from else Find(s, d, from + 1)
  }

  /** The pieces of `s` between non-overlapping occurrences of `d`, leftmost first. */
  function Split(s: string, d: string): (pieces: seq<string>)
    requires d != []
    ensures pieces != []
  {
    var i := Find(s, d, 0);
    if i == |s| then [s] else [s[..i]] + Split(s[i + |d|..], d)
  }

  function Join(pieces: seq<string>, d: string): string
    requires pieces != []
  {
    if |pieces| == 1 then pieces[0] else pieces[0] + d + Join(pieces[1..], d)
  }

  function Last(pieces: seq<string>): string
    requires pieces != []
  {
    pieces[|pieces| - 1]
  }

  function Front(pieces: seq<string>): seq<string>
    requires pieces != []
  {
    pieces[..|pieces| - 1]
  }

  /** `pieces` cuts `s` at delimiters only, each cut at the first delimiter that follows the previous one. */
  ghost predicate IsSplit(pieces: seq<string>, s: string, d: string) {
    && pieces != []
    && Join(pieces, d) == s
    && (forall k :: 0 <= k < |pieces| - 1 ==> First(pieces[k] + d, d, |pieces[k]|))
    && !Contains(Last(pieces), d)
  }

  lemma AtAgree(a: string, b: string, d: string, j: nat)
    requires j + |d| <= |a| <= |b| && a == b[..|a|]
    ensures At(a, d, j) <==> At(b, d, j)
  {
    assert a[j..j + |d|] == b[j..j + |d|];
  }

  lemma FirstInPrefix(s: string, d: string, i: nat)
    requires d != [] && i < |s| && At(s, d, i) && forall j :: 0 <= j < i ==> !At(s, d, j)
    ensures First(s[..i] + d, d, i)
  {
    var p := s[..i] + d;
    assert p == s[..i + |d|];
    forall j: nat | j <= i
      ensures At(p, d, j) <==> At(s, d, j)
    {
      AtAgree(p, s, d, j);
    }
  }

  lemma ConsPiece(p: string, rest: seq<string>)
    requires rest != []
    ensures Front([p] + rest) == [p] + Front(rest) && Last([p] + rest) == Last(rest)
  {
  }

  lemma ConsIsSplit(s: string, d: string, i: nat, rest: seq<string>)
    requires d != [] && i < |s| && First(s, d, i) && IsSplit(rest, s[i + |d|..], d)
    ensures IsSplit([s[..i]] + rest, s, d)
  {
    var pieces := [s[..i]] + rest;
    assert pieces[1..] == rest;
    assert s == s[..i] + d + s[i + |d|..];
    forall k | 0 <= k < |pieces| - 1
      ensures First(pieces[k] + d, d, |pieces[k]|)
    {
      if k == 0 {
        FirstInPrefix(s, d, i);
      } else {
        assert pieces[k] == rest[k - 1];
      }
    }
    ConsPiece(s[..i], rest);
  }

  lemma {:induction false} SplitIsSplit(s: string, d: string)
    requires d != []
    ensures IsSplit(Split(s, d), s, d)
  {
    var i := Find(s, d, 0);
    if i == |s| {
      forall j | At(s, d, j)
        ensures false
      {
      }
    } else {
      SplitIsSplit(s[i + |d|..], d);
      ConsIsSplit(s, d, i, Split(s[i + |d|..], d));
    }
  }

  /** An occurrence that is first before some text is added is still first after. */
  lemma FirstExtends(s: string, t: string, d: string, i: nat)
    requires d != [] && First(s, d, i)
    ensures First(s + t, d, i)
    ensures Find(s + t, d, 0) == i
  {
    forall j: nat | j <= i
      ensures At(s + t, d, j) <==> At(s, d, j)
    {
      AtAgree(s, s + t, d, j);
    }
    assert At(s + t, d, i);
  }

  /** There is only one way to split. */
  lemma {:induction false} SplitUnique(pieces: seq<string>, s: string, d: string)
    requires d != [] && IsSplit(pieces, s, d)
    ensures pieces == Split(s, d)
  {
    if |pieces| == 1 {
      assert Last(pieces) == s;
      var i := Find(s, d, 0);
      assert i == |s|;
    } else {
      var p, rest := pieces[0], Join(pieces[1..], d);
      assert s == (p + d) + rest;
      FirstExtends(p + d, rest, d, |p|);
      assert s[..|p|] == p && s[|p| + |d|..] == rest;
      assert Last(pieces[1..]) == Last(pieces);
      SplitUnique(pieces[1..], rest, d);
    }
  }

  lemma SplitFound(s: string, d: string, i: nat)
    requires d != [] && i < |s| && Find(s, d, 0) == i
    ensures Split(s, d) == [s[..i]] + Split(s[i + |d|..], d)
  {
  }

  lemma FoundAfterAppend(s: string, t: string, d: string, i: nat)
    requires d != [] && i < |s| && Find(s, d, 0) == i
    ensures Split(s + t, d) == [s[..i]] + Split(s[i + |d|..] + t, d)
  {
    FirstExtends(s, t, d, i);
    SplitFound(s + t, d, i);
    assert (s + t)[..i] == s[..i] && (s + t)[i + |d|..] == s[i + |d|..] + t;
  }

  lemma Regroup(a: seq<string>, b: seq<string>, c: seq<string>)
    ensures a + (b + c) == (a + b) + c
  {
  }

  lemma SplitAppendStep(s: string, t: string, d: string, i: nat)
    requires d != [] && i < |s| && Find(s, d, 0) == i
    requires var rest := Split(s[i + |d|..], d);
             Split(s[i + |d|..] + t, d) == Front(rest) + Split(Last(rest) + t, d)
    ensures Split(s + t, d) == Front(Split(s, d)) + Split(Last(Split(s, d)) + t, d)
  {
    var rest := Split(s[i + |d|..], d);
    FoundAfterAppend(s, t, d, i);
    SplitFound(s, d, i);
    ConsPiece(s[..i], rest);
    Regroup([s[..i]], Front(rest), Split(Last(rest) + t, d));
  }

  /** Splitting more text only continues from the last piece. */
  lemma {:induction false} SplitAppend(s: string, t: string, d: string)
    requires d != []
    ensures Split(s + t, d) == Front(Split(s, d)) + Split(Last(Split(s, d)) + t, d)
  {
    var i := Find(s, d, 0);
    if i == |s| {
      assert Front([s]) == [];
    } else {
      SplitAppend(s[i + |d|..], t, d);
      SplitAppendStep(s, t, d, i);
    }
  }

  /** The pieces that `chunk` completes when it arrives after `received`. */
  function Completed(received: string, chunk: string, d: string): seq<string>
    requires d != []
  {
    Front(Split(Last(Split(received, d)) + chunk, d))
  }

  function Concat(chunks: seq<string>): string {
    if chunks == [] then "" else Concat(chunks[..|chunks| - 1]) + chunks[|chunks| - 1]
  }

  /** All pieces handed on while the chunks arrive one by one. */
  function Handed(chunks: seq<string>, d: string): seq<string>
    requires d != []
  {
    if chunks == [] then []
    else
      var before := chunks[..|chunks| - 1];
      Handed(before, d) + Completed(Concat(before), chunks[|chunks| - 1], d)
  }

  lemma FramesAppend(a: seq<string>, b: seq<string>)
    requires b != []
    ensures Last(a + b) == Last(b) && Front(a + b) == a + Front(b)
  {
  }

  lemma CompletedExtends(received: string, chunk: string, d: string)
    requires d != []
    ensures Front(Split(received + chunk, d)) == Front(Split(received, d)) + Completed(received, chunk, d)
    ensures Last(Split(received + chunk, d)) == Last(Split(Last(Split(received, d)) + chunk, d))
  {
    SplitAppend(received, chunk, d);
    FramesAppend(Front(Split(received, d)), Split(Last(Split(received, d)) + chunk, d));
  }

  /** Whatever the chunks, what is handed on is the whole stream split at once, up to its last delimiter. */
  lemma {:induction false} HandedIsWholeStream(chunks: seq<string>, d: string)
    requires d != []
    ensures Handed(chunks, d) == Front(Split(Concat(chunks), d))
  {
    if chunks == [] {
      assert Split("", d) == [""];
    } else {
      var before, last := chunks[..|chunks| - 1], chunks[|chunks| - 1];
      HandedIsWholeStream(before, d);
      CompletedExtends(Concat(before), last, d);
    }
  }
}
