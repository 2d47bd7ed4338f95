/** Small facts of real arithmetic, each kept in a lemma of its own so that
    the solver meets products and quotients only in tiny contexts. */
module Arith {

  lemma SquareNonNegative(x: real)
    ensures 0.0 <= x * x
  {
  }

  lemma ProductNonNegative(x: real, y: real)
    requires 0.0 <= x && 0.0 <= y
    ensures 0.0 <= x * y
  {
  }

  lemma QuotientNonNegative(x: real, y: real)
    requires 0.0 <= x && 0.0 < y
    ensures 0.0 <= x / y
  {
  }

  lemma QuotientTimesDivisor(x: real, c: real)
    requires c != 0.0
    ensures (x / c) * c == x
  {
  }

  /** A larger divisor gives a smaller quotient. */
  lemma QuotientAntitone(n: real, d1: real, d2: real)
    requires 0.0 < d1 <= d2 && 0.0 <= n
    ensures n / d2 <= n / d1
  {
    QuotientTimesDivisor(n, d1);
    QuotientTimesDivisor(n, d2);
  }

  /** A quotient of a number by a positive divisor no larger is at least 1. */
  lemma QuotientAtLeastOne(n: real, d: real)
    requires 0.0 < d <= n
    ensures 1.0 <= n / d
  {
    QuotientTimesDivisor(n, d);
  }

  lemma ProductWithZero(x: real, y: real)
    requires y == 0.0
    ensures x * y == 0.0
  {
  }

  /** A non-zero number divided by itself is one. */
  lemma QuotientSelf(x: real)
    requires x != 0.0
    ensures x / x == 1.0
  {
  }

  /** Only zero squares to zero. */
  lemma SquareZero(x: real)
    ensures x * x == 0.0 ==> x == 0.0
  {
    if x != 0.0 {
      assert (x * x) / x == x;
    }
  }
}
