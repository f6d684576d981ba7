// String operations the problem lists use. `localeCompare` and the default
// array sort are both modelled by code-point lexicographic order, and
// `toLowerCase` by ASCII case mapping.

module Strings {

  /** Lexicographic comparison: -1, 0 or 1 as `a` comes before, equals or
      comes after `b`. */
  function Compare(a: string, b: string): (r: int)
    ensures -1 <= r <= 1
    ensures r == 0 <==> a == b
  {
    if a == [] && b == [] then 0
    else if a == [] then -1
    else if b == [] then 1
    else if a[0] < b[0] then -1
    else if a[0] > b[0] then 1
    else
      assert a == [a[0]] + a[1..] && b == [b[0]] + b[1..];
      Compare(a[1..], b[1..])
  }

  /** Swapping the operands negates the comparison. */
  lemma {:induction false} CompareAntisymmetric(a: string, b: string)
    ensures Compare(a, b) == -Compare(b, a)
  {
    if a != [] && b != [] && a[0] == b[0] {
      CompareAntisymmetric(a[1..], b[1..]);
    }
  }

  /** "Not after" is transitive. */
  lemma {:induction false} CompareTransitive(a: string, b: string, c: string)
    requires Compare(a, b) <= 0 && Compare(b, c) <= 0
    ensures Compare(a, c) <= 0
  {
    if a != [] && b != [] && c != [] && a[0] == b[0] == c[0] {
      CompareTransitive(a[1..], b[1..], c[1..]);
    }
  }

  /** `toLowerCase` on one character, ASCII letters only. */
  function LowerChar(c: char): (r: char)
    ensures !('A' <= r <= 'Z')
    ensures 'A' <= c <= 'Z' ==> r == (c as int + 32) as char && 'a' <= r <= 'z'
    ensures !('A' <= c <= 'Z') ==> r == c
  {
    if 'A' <= c <= 'Z' then (c as int + 32) as char else c
  }

  /** `toLowerCase`: the same characters with every upper-case letter lowered. */
  function Lower(s: string): (r: string)
    ensures |r| == |s|
    ensures forall i :: 0 <= i < |r| ==> !('A' <= r[i] <= 'Z')
    ensures forall i :: 0 <= i < |s| && 'A' <= s[i] <= 'Z' ==> r[i] == (s[i] as int + 32) as char
    ensures forall i :: 0 <= i < |s| && !('A' <= s[i] <= 'Z') ==> r[i] == s[i]
  {
    seq(|s|, i requires 0 <= i < |s| => LowerChar(s[i]))
  }

  /** Lowering twice is lowering once. */
  lemma LowerIdempotent(s: string)
    ensures Lower(Lower(s)) == Lower(s)
  {
  }

  /** `needle` occurs in `hay` starting at position `i`. */
  predicate OccursAt(hay: string, needle: string, i: int)
  {
    0 <= i && i + |needle| <= |hay| && hay[i..i + |needle|] == needle
  }

  /** `hay.indexOf(needle)`: the first position where `needle` occurs, or -1. */
  function IndexOf(hay: string, needle: string): (r: int)
    ensures r == -1 || OccursAt(hay, needle, r)
    ensures r == -1 ==> forall i :: !OccursAt(hay, needle, i)
    ensures forall i :: 0 <= i < r ==> !OccursAt(hay, needle, i)
    decreases |hay|
  {
    if |needle| > |hay| then -1
    else if hay[..|needle|] == needle then 0
    else
      assert !OccursAt(hay, needle, 0);
      var k := IndexOf(hay[1..], needle);
      ShiftOccurrence(hay, needle);
      if k == -1 then -1 else k + 1
  }

  /** An occurrence after the first position is an occurrence in the tail. */
  lemma ShiftOccurrence(hay: string, needle: string)
    requires hay != []
    ensures forall i | 1 <= i :: OccursAt(hay, needle, i) <==> OccursAt(hay[1..], needle, i - 1)
  {
    forall i | 1 <= i ensures OccursAt(hay, needle, i) <==> OccursAt(hay[1..], needle, i - 1) {
      if i + |needle| <= |hay| {
        var here := hay[i..i + |needle|];
        var there := hay[1..][i - 1..i - 1 + |needle|];
        forall k | 0 <= k < |needle| ensures here[k] == there[k] {
          assert here[k] == hay[i + k];
          assert there[k] == hay[1..][i - 1 + k];
        }
        assert here == there;
      }
    }
  }

  /** `hay.includes(needle)`. */
  predicate Includes(hay: string, needle: string)
  {
    IndexOf(hay, needle) >= 0
  }

  /** Every string includes the empty string. */
  lemma IncludesEmpty(hay: string)
    ensures Includes(hay, "")
  {
    assert OccursAt(hay, "", 0);
  }

}
