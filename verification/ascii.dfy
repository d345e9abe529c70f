/**
 Upper-casing of role names. `String.toUpperCase()` is modelled on the ASCII
 letters only: every other character is left as it is.
 */
module Ascii {

  predicate IsLower(c: char) {
    'a' <= c <= 'z'
  }

  predicate IsUpper(c: char) {
    'A' <= c <= 'Z'
  }

  function UpperChar(c: char): char {
    if IsLower(c) then (c as int - 32) as char else c
  }

  /** `s.toUpperCase()` restricted to ASCII. */
  function ToUpper(s: string): (r: string)
    ensures |r| == |s|
    ensures forall i :: 0 <= i < |s| ==> !IsLower(r[i])
  {
    seq(|s|, i requires 0 <= i < |s| => UpperChar(s[i]))
  }

  /** Two characters that are the same letter, or the same non-letter, in either case. */
  predicate SameIgnoringCase(c: char, d: char) {
    c == d || (IsLower(c) && d as int == c as int - 32) || (IsLower(d) && c as int == d as int - 32)
  }

  /** Upper-casing identifies exactly the strings that agree position by position up to letter case. */
  lemma ToUpperIdentifiesCase(a: string, b: string)
    ensures ToUpper(a) == ToUpper(b) <==>
              |a| == |b| && forall i :: 0 <= i < |a| ==> SameIgnoringCase(a[i], b[i])
  {
    if ToUpper(a) == ToUpper(b) {
      forall i | 0 <= i < |a|
        ensures SameIgnoringCase(a[i], b[i])
      {
        assert UpperChar(a[i]) == ToUpper(a)[i] == ToUpper(b)[i] == UpperChar(b[i]);
      }
    }
    if |a| == |b| && forall i :: 0 <= i < |a| ==> SameIgnoringCase(a[i], b[i]) {
      forall i | 0 <= i < |a|
        ensures ToUpper(a)[i] == ToUpper(b)[i]
      {
        assert SameIgnoringCase(a[i], b[i]);
      }
    }
  }
}
