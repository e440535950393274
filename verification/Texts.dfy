/** Texts as JavaScript measures them. */
module Texts {
  /** The length in UTF-16 code units: a character outside the basic plane takes two. */
  function Units(s: string): (n: nat)
    ensures |s| <= n <= 2 * |s|
  {
    if s == [] then 0 else Units(s[..|s| - 1]) + if s[|s| - 1] as int > 0xFFFF then 2 else 1
  }

  /** One unit for each character, and one more for each that lies beyond the basic plane. */
  lemma {:induction false} UnitsMean(s: string)
    ensures Units(s) == |s| + |set i | 0 <= i < |s| && s[i] as int >= 0x10000|
  {
    var beyond := set i | 0 <= i < |s| && s[i] as int >= 0x10000;
    if s == [] {
      assert beyond == {};
    } else {
      var n := |s| - 1;
      var front := s[..n];
      UnitsMean(front);
      var before := set i | 0 <= i < n && front[i] as int >= 0x10000;
      assert beyond == before + if s[n] as int >= 0x10000 then {n} else {};
    }
  }
}
