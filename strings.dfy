/** The string operations the Python code relies on: `in`, `endswith`,
    `str(int)` and `split(".")[0]`. */
module Strings {

  predicate StartsWith(s: string, prefix: string)
  {
    |prefix| <= |s| && s[..|prefix|] == prefix
  }

  /** Python's `s.endswith(suffix)`. */
  predicate EndsWith(s: string, suffix: string)
  {
    |suffix| <= |s| && s[|s| - |suffix|..] == suffix
  }

  /** Python's `sub in s`. */
  predicate Contains(s: string, sub: string)
    decreases |s|
  {
    StartsWith(s, sub) || (|s| > 0 && Contains(s[1..], sub))
  }

  predicate IsDigit(c: char)
  {
    '0' <= c <= '9'
  }

  predicate AllDigits(s: string)
  {
    forall i :: 0 <= i < |s| ==> IsDigit(s[i])
  }

  function Digit(d: nat): (c: char)
    requires d < 10
    ensures IsDigit(c) && c as int - '0' as int == d
  {
    ('0' as int + d) as char
  }

  /** Python's `str(n)` (and `"{}".format(n)`) for a non-negative integer. */
  function NatToString(n: nat): (s: string)
    ensures |s| > 0 && AllDigits(s)
    ensures |s| > 1 ==> s[0] != '0'
    decreases n
  {
    if n < 10 then [Digit(n)] else NatToString(n / 10) + [Digit(n % 10)]
  }

  /** Python's `int(s)` for a string of decimal digits. */
  function DecimalValue(s: string): nat
    requires AllDigits(s)
    decreases |s|
  {
    if s == [] then 0 else DecimalValue(s[..|s| - 1]) * 10 + (s[|s| - 1] as int - '0' as int)
  }

  /** Reading back the decimal form of `n` gives `n`. */
  lemma {:induction false} DecimalRoundTrip(n: nat)
    ensures DecimalValue(NatToString(n)) == n
    decreases n
  {
    if n >= 10 {
      DecimalRoundTrip(n / 10);
      var s := NatToString(n);
      assert s[..|s| - 1] == NatToString(n / 10);
    }
  }

  /** Distinct numbers have distinct decimal forms. */
  lemma NatToStringInjective(m: nat, n: nat)
    requires NatToString(m) == NatToString(n)
    ensures m == n
  {
    DecimalRoundTrip(m);
    DecimalRoundTrip(n);
  }

  /** Python's `s.split(".")[0]`: the part of `s` before its first dot. */
  function BeforeFirstDot(s: string): (r: string)
    ensures StartsWith(s, r) && '.' !in r
    ensures |r| < |s| ==> s[|r|] == '.'
    decreases |s|
  {
    if s == [] || s[0] == '.' then [] else [s[0]] + BeforeFirstDot(s[1..])
  }

  /** Cutting `s + "." + ext` at its first dot gives back `s` when `s` has no dot. */
  lemma {:induction false} BeforeFirstDotOfExtension(s: string, ext: string)
    requires '.' !in s
    ensures BeforeFirstDot(s + "." + ext) == s
    decreases |s|
  {
    if s != [] {
      assert (s + "." + ext)[1..] == s[1..] + "." + ext;
      BeforeFirstDotOfExtension(s[1..], ext);
    }
  }

  /** An infix between a fixed prefix and a fixed suffix is determined by the whole. */
  lemma InfixInjective(a: string, x: string, y: string, b: string)
    requires a + x + b == a + y + b
    ensures x == y
  {
    var s := a + x + b;
    assert |x| == |y|;
    assert s[|a|..|a| + |x|] == x;
    assert (a + y + b)[|a|..|a| + |y|] == y;
  }

  /** Two strings whose suffixes differ at the same distance `i` from the end differ. */
  lemma SuffixesDiffer(a: string, s1: string, b: string, s2: string, i: nat)
    requires i < |s1| && i < |s2| && s1[|s1| - 1 - i] != s2[|s2| - 1 - i]
    ensures a + s1 != b + s2
  {
    var t, u := a + s1, b + s2;
    assert t[|t| - 1 - i] == s1[|s1| - 1 - i];
    assert u[|u| - 1 - i] == s2[|s2| - 1 - i];
  }
}
