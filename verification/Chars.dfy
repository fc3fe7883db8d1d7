/** ASCII characters: digits, and comparison that ignores case. */
module Chars {
  predicate IsDigit(c: char) { '0' <= c <= '9' }

  function LowerChar(c: char): char { if 'A' <= c <= 'Z' then (c as int + 32) as char else c }

  predicate EqIgnoreCase(a: string, b: string) {
    |a| == |b| && forall i :: 0 <= i < |a| ==> LowerChar(a[i]) == LowerChar(b[i])
  }

  /** Position by position: the same character, or the upper- and lower-case form of one letter. */
  lemma EqIgnoreCaseIff(a: string, b: string)
    ensures EqIgnoreCase(a, b) <==> |a| == |b| && forall i :: 0 <= i < |a| ==> SameLetter(a[i], b[i])
  {
    if |a| == |b| {
      forall i | 0 <= i < |a|
        ensures LowerChar(a[i]) == LowerChar(b[i]) <==> SameLetter(a[i], b[i])
      {
        SameLetterIff(a[i], b[i]);
      }
    }
  }

  predicate SameLetter(c: char, d: char) {
    || c == d
    || ('A' <= c <= 'Z' && d as int == c as int + 32)
    || ('A' <= d <= 'Z' && c as int == d as int + 32)
  }

  lemma SameLetterIff(c: char, d: char)
    ensures LowerChar(c) == LowerChar(d) <==> SameLetter(c, d)
  {
  }
}
