/** Decimal notation of the naturals, and the names that end in it. */
module Decimal {

  predicate IsDigit(c: char) {
    '0' <= c <= '9'
  }

  function DigitChar(d: nat): (c: char)
    requires d < 10
    ensures IsDigit(c)
  {
    ('0' as int + d) as char
  }

  function DigitValue(c: char): (d: nat)
    requires IsDigit(c)
    ensures d < 10 && DigitChar(d) == c
  {
    c as int - '0' as int
  }

  predicate AllDigits(s: string) {
    forall i :: 0 <= i < |s| ==> IsDigit(s[i])
  }

  /** What `fmt.Sprint` prints for a natural number. */
  function Digits(n: nat): (s: string)
    ensures |s| > 0 && AllDigits(s)
  {
    if n < 10 then [DigitChar(n)] else Digits(n / 10) + [DigitChar(n % 10)]
  }

  /** What `strconv.ParseInt` reads back from a string of digits. */
  function ParseDigits(s: string): nat
    requires AllDigits(s)
  {
    if s == [] then 0 else 10 * ParseDigits(s[..|s| - 1]) + DigitValue(s[|s| - 1])
  }

  lemma {:induction false} ParseDigitsInverts(n: nat)
    ensures ParseDigits(Digits(n)) == n
  {
    if n >= 10 {
      ParseDigitsInverts(n / 10);
      assert Digits(n)[..|Digits(n)| - 1] == Digits(n / 10);
    }
  }

  /** A digit string is cut off unambiguously by the underscore before it. */
  lemma DigitSuffixUnique(p: string, d: string, q: string, e: string)
    requires p != [] && q != [] && p[|p| - 1] == '_' && q[|q| - 1] == '_'
    requires AllDigits(d) && AllDigits(e)
    requires p + d == q + e
    ensures p == q && d == e
  {
    var s := p + d;
    assert s[|p| - 1] == '_' && s[|q| - 1] == '_';
    assert forall k :: |p| <= k < |s| ==> IsDigit((p + d)[k]);
    assert forall k :: |q| <= k < |s| ==> IsDigit((q + e)[k]);
    assert p == s[..|p|] && q == s[..|q|];
    assert d == s[|p|..] && e == s[|q|..];
  }

  /** Numbers after an underscore can be read back: equal names have equal stems and equal numbers. */
  lemma NumberedNameUnique(p: string, m: nat, q: string, n: nat)
    requires p != [] && q != [] && p[|p| - 1] == '_' && q[|q| - 1] == '_'
    requires p + Digits(m) == q + Digits(n)
    ensures p == q && m == n
  {
    DigitSuffixUnique(p, Digits(m), q, Digits(n));
    ParseDigitsInverts(m);
    ParseDigitsInverts(n);
  }
}
