/** The C++ real-to-integer conversions the driver uses, over exact reals. */
module Rounding {

  /** A floating-point argument. */
  datatype Double = Finite(value: real) | NotFinite

  /** std::lround: the nearest integer, halves away from zero. */
  function LRound(x: real): int {
    if x >= 0.0 then (x + 0.5).Floor else -((-x + 0.5).Floor)
  }

  /** std::trunc followed by an integer cast. */
  function Trunc(x: real): int {
    if x >= 0.0 then x.Floor else -((-x).Floor)
  }

  /** Equal arguments, however they were computed, convert to the same integer. */
  lemma SameCode(x: real, y: real)
    requires x == y
    ensures LRound(x) == LRound(y) && Trunc(x) == Trunc(y)
  {}

  lemma LRoundNearest(x: real)
    ensures -0.5 <= LRound(x) as real - x <= 0.5
  {}

  function Abs(x: real): real {
    if x < 0.0 then -x else x
  }

  /** No integer is closer. */
  lemma LRoundClosest(x: real, n: int, other: int)
    requires n == LRound(x)
    ensures Abs(n as real - x) <= 0.5 && Abs(n as real - x) <= Abs(other as real - x)
  {
    LRoundNearest(x);
    Closest(x, n as real, other as real, other - n);
  }

  lemma Closest(x: real, n: real, other: real, apart: int)
    requires -0.5 <= n - x <= 0.5 && other - n == apart as real
    ensures Abs(n - x) <= 0.5 && Abs(n - x) <= Abs(other - x)
  {
    assert apart >= 1 ==> apart as real >= 1.0;
    assert apart <= -1 ==> apart as real <= -1.0;
  }

  /** Only a value within half a unit of `n` rounds to `n`. */
  lemma LRoundExact(n: int, x: real)
    requires -0.5 < x - n as real < 0.5
    ensures LRound(x) == n
  {}

  lemma LRoundMonotone(x: real, y: real)
    requires x <= y
    ensures LRound(x) <= LRound(y)
  {}
}
