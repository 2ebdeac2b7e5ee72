/**
 * Swift's integer arithmetic as the model needs it.
 *
 * Swift's `/` and `%` on `Int` truncate toward zero (the remainder takes the
 * sign of the dividend), and `Int(x)` for a `Double` x drops the fractional
 * part toward zero. Dafny's `/` and `%` on `int` are Euclidean, so both are
 * written out here. Integers are unbounded: 64-bit overflow, and the traps of
 * `Int(x)` on NaN, infinity or out-of-range values, are not modelled.
 */
module SwiftNumeric {

  function Abs(x: int): (r: int)
    ensures 0 <= r
  {
    if x < 0 then -x else x
  }

  function Min(a: int, b: int): int
  {
    if a <= b then a else b
  }

  function Max(a: int, b: int): int
  {
    if a <= b then b else a
  }

  /** Swift's `x / d` on `Int`. */
  function TruncDiv(x: int, d: int): int
    requires d != 0
  {
    var n := Abs(x) / Abs(d);
    if (x < 0) == (d < 0) then n else -n
  }

  /**
   * The truncating quotient is the quotient rounded toward zero: its
   * magnitude is the largest `n` with `n * |d| <= |x|`, and it is negative
   * only when the operands' signs differ.
   */
  lemma {:induction false} TruncDivRoundsTowardZero(x: int, d: int)
    requires d != 0
    ensures Abs(TruncDiv(x, d)) * Abs(d) <= Abs(x) < (Abs(TruncDiv(x, d)) + 1) * Abs(d)
    ensures TruncDiv(x, d) != 0 ==> ((TruncDiv(x, d) < 0) <==> ((x < 0) != (d < 0)))
  {
    EuclidBounds(Abs(x), Abs(d));
    assert Abs(TruncDiv(x, d)) == Abs(x) / Abs(d);
  }

  /** Swift's `x % d` on `Int`: the remainder takes the sign of the dividend. */
  function TruncMod(x: int, d: int): (r: int)
    requires d != 0
    ensures 0 <= x ==> 0 <= r < Abs(d)
    ensures x < 0 ==> -Abs(d) < r <= 0
  {
    var m := Abs(x) % Abs(d);
    if x < 0 then -m else m
  }

  /** Swift's `Int(x)` for a finite `Double` x: the integer part, rounded toward zero. */
  function TruncReal(x: real): (n: int)
    ensures 0.0 <= x ==> 0 <= n && n as real <= x < n as real + 1.0
    ensures x < 0.0 ==> n <= 0 && x <= n as real < x + 1.0
  {
    if x >= 0.0 then x.Floor else -((-x).Floor)
  }

  lemma EuclidBounds(x: nat, d: nat)
    requires d > 0
    ensures (x / d) * d <= x < (x / d + 1) * d
    ensures x == (x / d) * d + x % d
  {
  }

  /** Truncating quotient and remainder recombine to the dividend, as in Swift. */
  lemma {:induction false} DivModIdentity(x: int, d: int)
    requires d != 0
    ensures d * TruncDiv(x, d) + TruncMod(x, d) == x
  {
    EuclidBounds(Abs(x), Abs(d));
  }

  /** On a non-negative dividend and a positive divisor Swift and Dafny agree. */
  lemma {:induction false} AgreesWithEuclid(x: int, d: int)
    requires 0 <= x && 0 < d
    ensures TruncDiv(x, d) == x / d && TruncMod(x, d) == x % d
  {
  }

  /** On a negative dividend the two conventions differ: -1 / 60 is 0 in Swift, -1 in Dafny. */
  lemma NegativeDividendDiffers()
    ensures TruncDiv(-1, 60) == 0 && TruncMod(-1, 60) == -1
    ensures -1 / 60 == -1 && -1 % 60 == 59
  {
  }
}
