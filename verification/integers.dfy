/** Go's 64-bit integers, which wrap around. */
module Integers {

  const TWO_63 := 0x8000_0000_0000_0000
  const TWO_64 := 0x1_0000_0000_0000_0000

  predicate Int64(n: int) {
    -TWO_63 <= n < TWO_63
  }

  /** What is left of a sum, a product or a negation. */
  function Wrap(n: int): (r: int)
    ensures Int64(r) && (Int64(n) ==> r == n)
  {
    (n + TWO_63) % TWO_64 - TWO_63
  }

  lemma WrapAdd(a: int, b: int)
    ensures Wrap(Wrap(a) + b) == Wrap(a + b)
  {
    var q := (a + TWO_63) / TWO_64;
    assert Wrap(a) + b + TWO_63 == (a + b + TWO_63) + (-q) * TWO_64;
    ModShift(a + b + TWO_63, -q);
  }

  lemma ModShift(n: int, k: int)
    ensures (n + k * TWO_64) % TWO_64 == n % TWO_64
  {
  }

  /** A negation wraps to the negation, except for the least integer, which is its own. */
  lemma WrapNegates(n: int)
    ensures Wrap(-n) == if Wrap(n) == -TWO_63 then -TWO_63 else -Wrap(n)
  {
  }

  /** Division truncates towards zero. */
  function Quotient(n: int, d: nat): int
    requires d > 0
  {
    if n >= 0 then n / d else -(-n / d)
  }
}
