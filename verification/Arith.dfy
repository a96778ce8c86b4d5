/** Numbers: bounds and conversions, and division and remainder by a variable from first principles. */
module Arith {

  function Max(a: int, b: int): int { if a >= b then a else b }
  function Min(a: int, b: int): int { if a <= b then a else b }
  function MaxReal(a: real, b: real): real { if b > a then b else a }

  function Clamp(v: int, lo: int, hi: int): int {
    var w := if v < lo then lo else v;
    if w > hi then hi else w
  }

  function ClampReal(v: real, lo: real, hi: real): real {
    var w := if v < lo then lo else v;
    if w > hi then hi else w
  }

  /** C's conversion to an integer type drops the fraction. */
  function Trunc(x: real): int {
    if x >= 0.0 then x.Floor else -(-x).Floor
  }

  lemma MultipleIsFar(m: int, d: int)
    requires m > 0
    ensures d >= 1 ==> m * d >= m
    ensures d <= -1 ==> m * d <= -m
  {}

  /** Quotient and remainder are determined by what they are. */
  lemma DivModUnique(x: int, q: int, r: int, m: int)
    requires m > 0 && x == m * q + r && 0 <= r < m
    ensures x / m == q && x % m == r
  {
    var q', r' := x / m, x % m;
    assert m * (q - q') == m * q - m * q';
    MultipleIsFar(m, q - q');
  }

  lemma DivIsBelow(x: nat, n: nat, bound: nat)
    requires n > 0 && x < n * bound
    ensures x / n < bound
  {
    assert n * (x / n) <= x;
    if x / n >= bound {
      MulMonotone(n, bound, x / n);
    }
  }

  lemma MulMonotone(n: nat, a: nat, b: nat)
    requires a <= b
    ensures n * a <= n * b
  {}

  lemma Scaled(x: real, y: real, s: real)
    requires x <= y && s >= 0.0
    ensures x * s <= y * s
    ensures x < y && s > 0.0 ==> x * s < y * s
  {}

  lemma DivMonotone(x: nat, y: nat, n: nat)
    requires n > 0 && x <= y
    ensures x / n <= y / n
  {
    assert n * (y / n + 1) == n * (y / n) + n;
    DivIsBelow(x, n, y / n + 1);
  }
}
