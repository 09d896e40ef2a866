/**
 * Java `int` arithmetic: 32-bit two's complement, where `+` and `-` wrap
 * around silently on overflow (section 15.18.2 of the Java Language
 * Specification).
 */
module JavaInt {
  const MIN: int := -0x8000_0000
  const MAX: int := 0x7fff_ffff
  const MODULUS: int := 0x1_0000_0000

  type Int32 = x: int | -0x8000_0000 <= x <= 0x7fff_ffff

  predicate InRange(x: int) {
    MIN <= x <= MAX
  }

  /** The 32-bit value congruent to `x` modulo 2^32. */
  function Wrap(x: int): (r: Int32)
    ensures InRange(x) ==> r == x
    ensures MAX < x <= MAX + MODULUS ==> r == x - MODULUS
    ensures MIN - MODULUS <= x < MIN ==> r == x + MODULUS
  {
    (x - MIN) % MODULUS + MIN
  }

  /** Java's `a + b` on two ints. */
  function Add(a: Int32, b: Int32): (r: Int32)
    ensures InRange(a + b) ==> r == a + b
    ensures a + b > MAX ==> r == a + b - MODULUS && r < 0
    ensures a + b < MIN ==> r == a + b + MODULUS && r >= 0
  {
    Wrap(a + b)
  }

  /** Java's `a - b` on two ints. */
  function Sub(a: Int32, b: Int32): (r: Int32)
    ensures InRange(a - b) ==> r == a - b
    ensures a - b > MAX ==> r == a - b - MODULUS && r < 0
    ensures a - b < MIN ==> r == a - b + MODULUS && r >= 0
  {
    Wrap(a - b)
  }

  /** Adding one to the largest int gives the smallest: overflow makes a counter negative. */
  lemma AddOverflowWraps()
    ensures Add(MAX, 1) == MIN
  {
  }

  /** Without overflow, adding a non-negative amount never decreases a non-negative counter. */
  lemma AddMonotone(a: Int32, b: Int32)
    requires 0 <= a && 0 <= b && a + b <= MAX
    ensures a <= Add(a, b) && 0 <= Add(a, b)
  {
  }
}
