/** Character-level string helpers used by several handlers. */
module Text {

  /** ASCII lowercasing of one character; every non-ASCII-letter is kept. */
  function LowerChar(c: char): char {
    if 'A' <= c <= 'Z' then (c as int + 32) as char else c
  }

  /** ASCII uppercasing of one character. */
  function UpperChar(c: char): char {
    if 'a' <= c <= 'z' then (c as int - 32) as char else c
  }

  /** ASCII lowercasing of a whole string, character by character. */
  function AsciiLower(s: string): string {
    seq(|s|, i requires 0 <= i < |s| => LowerChar(s[i]))
  }

  /** True if every character of `s` is lower-case in the ASCII sense. */
  predicate IsAsciiLowerCase(s: string) {
    forall i :: 0 <= i < |s| ==> LowerChar(s[i]) == s[i]
  }

  /** `s` spells the lower-case word `w` in some mix of upper and lower case. */
  predicate IsCasingOf(s: string, w: string) {
    |s| == |w| && forall i :: 0 <= i < |s| ==> s[i] == w[i] || s[i] == UpperChar(w[i])
  }

  /** Lowercasing any casing of a lower-case word gives back the word. */
  lemma {:induction false} LowerOfCasing(s: string, w: string)
    requires IsAsciiLowerCase(w)
    requires IsCasingOf(s, w)
    ensures AsciiLower(s) == w
  {
    forall i | 0 <= i < |s|
      ensures AsciiLower(s)[i] == w[i]
    {
      assert LowerChar(w[i]) == w[i];
      if s[i] != w[i] {
        assert s[i] == UpperChar(w[i]);
      }
    }
  }

  /** `sub` occurs in `s` starting at index `i`. */
  predicate OccursAt(s: string, sub: string, i: int) {
    0 <= i && i + |sub| <= |s| && s[i..i + |sub|] == sub
  }

  /** `sub` occurs somewhere in `s` (Rust's `str::contains`). */
  predicate Contains(s: string, sub: string) {
    exists i :: 0 <= i <= |s| && OccursAt(s, sub, i)
  }

  /** Substring search by scanning every start position in turn. */
  method FindSubstring(s: string, sub: string) returns (found: bool)
    ensures found <==> Contains(s, sub)
  {
    if |sub| > |s| {
      return false;
    }
    var i := 0;
    while i <= |s| - |sub|
      invariant 0 <= i <= |s| - |sub| + 1
      invariant forall j :: 0 <= j < i ==> !OccursAt(s, sub, j)
    {
      if s[i..i + |sub|] == sub {
        assert OccursAt(s, sub, i);
        return true;
      }
      i := i + 1;
    }
    return false;
  }
}
