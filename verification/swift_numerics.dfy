/** The rounding and remainder operations the timers use, on exact numbers.
    Swift's `Double` is modelled by `real` and `Int` by `int`. */
module SwiftNumerics {

  /** `abs` on an `Int`. */
  function Abs(x: int): (r: nat)
    ensures r == x || r == -x
  {
    if x < 0 then -x else x
  }

  /** `abs` on a `Double`. */
  function AbsReal(x: real): (r: real)
    ensures r >= 0.0 && (r == x || r == -x)
  {
    if x < 0.0 then -x else x
  }

  /** `Int(x)` for a `Double` `x`: truncation toward zero. */
  function Trunc(x: real): (r: int)
    ensures 0.0 <= x ==> 0 <= r && r as real <= x < r as real + 1.0
    ensures x < 0.0 ==> r <= 0 && r as real - 1.0 < x <= r as real
  {
    if x >= 0.0 then x.Floor else -((-x).Floor)
  }

  /** `round(x)` for a `Double` `x`: to the nearest integer, halves away
      from zero. */
  function Round(x: real): (r: int)
    ensures 0.0 <= x ==> 0 <= r && r as real - 0.5 <= x < r as real + 0.5
    ensures x < 0.0 ==> r <= 0 && r as real - 0.5 < x <= r as real + 0.5
  {
    if x >= 0.0 then (x + 0.5).Floor else -((-x + 0.5).Floor)
  }

  /** Euclidean division of a non-negative number by a positive one. */
  lemma DivisionOfNat(m: int, b: int)
    requires 0 <= m && 0 < b
    ensures m == (m / b) * b + m % b && 0 <= m / b && 0 <= m % b < b
  {
  }

  /** `a % b` on `Int` for a positive divisor: the remainder of the division
      truncated toward zero, which takes the sign of the dividend. Dafny's
      `%` is Euclidean (never negative) and agrees with it only when the
      dividend is non-negative. */
  function Rem(a: int, b: int): (r: int)
    requires b > 0
    ensures -b < r < b
    ensures exists q: int :: a == q * b + r && (a >= 0 ==> q >= 0) && (a <= 0 ==> q <= 0)
    ensures a >= 0 ==> 0 <= r && r == a % b
    ensures a <= 0 ==> r <= 0 && r == -((-a) % b)
  {
    if a >= 0 then
      DivisionOfNat(a, b);
      var q := a / b;
      assert a == q * b + a % b;
      a % b
    else
      DivisionOfNat(-a, b);
      var q := -((-a) / b);
      assert a == q * b + -((-a) % b);
      -((-a) % b)
  }

  /** Rounding is monotone. */
  lemma RoundMonotone(x: real, y: real)
    requires x <= y
    ensures Round(x) <= Round(y)
  {
  }

  /** Truncation is monotone. */
  lemma TruncMonotone(x: real, y: real)
    requires x <= y
    ensures Trunc(x) <= Trunc(y)
  {
  }

  /** Rounding commutes with adding a whole number, on non-negative values. */
  lemma RoundShift(x: real, n: nat)
    requires 0.0 <= x
    ensures Round(x + n as real) == Round(x) + n
  {
  }
}
