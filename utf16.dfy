/**
 * String lengths as JavaScript counts them: in UTF-16 code units. A
 * character outside the Basic Multilingual Plane is encoded as a surrogate
 * pair and counts twice, so `length` can be larger than the number of
 * characters.
 */
module Utf16 {
  /** The number of UTF-16 code units that encode `c`. */
  function CodeUnits(c: char): (n: nat)
    ensures n == 1 <==> c as int < 0x1_0000
    ensures n == 1 || n == 2
  {
    if c as int < 0x1_0000 then 1 else 2
  }

  /** `s.length` in JavaScript. */
  function Length(s: string): (n: nat)
    ensures |s| <= n <= 2 * |s|
  {
    if s == [] then 0 else CodeUnits(s[0]) + Length(s[1..])
  }

  /** On characters of the Basic Multilingual Plane the two lengths agree. */
  lemma {:induction false} LengthOfBmp(s: string)
    requires forall i :: 0 <= i < |s| ==> s[i] as int < 0x1_0000
    ensures Length(s) == |s|
  {
    if s != [] {
      assert forall i :: 0 <= i < |s[1..]| ==> s[1..][i] == s[i + 1];
      LengthOfBmp(s[1..]);
    }
  }

  /** The length of a concatenation is the sum of the lengths. */
  lemma {:induction false} LengthOfConcat(a: string, b: string)
    ensures Length(a + b) == Length(a) + Length(b)
  {
    if a != [] {
      assert (a + b)[0] == a[0] && (a + b)[1..] == a[1..] + b;
      assert Length(a + b) == CodeUnits(a[0]) + Length(a[1..] + b);
      LengthOfConcat(a[1..], b);
    } else {
      assert a + b == b;
    }
  }

  /** Two characters outside the Basic Multilingual Plane are four code units. */
  lemma AstralCountsTwice()
    ensures Length("\U{1F600}\U{1F600}") == 4
  {
  }
}
