/** The C++ integer operations the game relies on, written out: unsigned
    32-bit wrap-around, division and remainder that truncate toward zero,
    and the float-to-int conversion that truncates. */
module CInt {

  const Two32: int := 0x1_0000_0000

  /** `unsigned int` values. */
  type U32 = x: int | 0 <= x < Two32

  /** An `unsigned int` expression: the mathematical value reduced mod 2^32. */
  function Wrap32(x: int): (r: U32)
    ensures 0 <= x < Two32 ==> r == x
    ensures (r - x) % Two32 == 0
  {
    x % Two32
  }

  /** C++ `a / b` on ints with a positive divisor: the quotient rounded
      toward zero rather than down. */
  function TruncDiv(a: int, b: int): (q: int)
    requires b > 0
    ensures a >= 0 ==> 0 <= a - q * b < b
    ensures a < 0 ==> -b < a - q * b <= 0
  {
    if a >= 0 then
      var d := a / b;
      assert a == d * b + a % b;
      d
    else
      var p := (-a) / b;
      assert -a == p * b + (-a) % b;
      -p
  }

  /** C++ `a % b` on ints with a positive divisor: a - (a / b) * b with the
      truncating quotient, so the remainder takes the sign of `a`. */
  function TruncRem(a: int, b: int): (r: int)
    requires b > 0
    ensures a == TruncDiv(a, b) * b + r
    ensures a >= 0 ==> 0 <= r < b
    ensures a < 0 ==> -b < r <= 0
  {
    a - TruncDiv(a, b) * b
  }

  /** `int(x)` for a float: drops the fractional part, rounding toward zero. */
  function Trunc(x: real): (n: int)
    ensures x >= 0.0 ==> n as real <= x < n as real + 1.0
    ensures x < 0.0 ==> n as real - 1.0 < x <= n as real
  {
    if x >= 0.0 then x.Floor else -((-x).Floor)
  }

  /** `std::min` and `std::max` on ints. */
  function Min(a: int, b: int): int { if a <= b then a else b }

  function Max(a: int, b: int): int { if a >= b then a else b }

  /** Wrapping after every increment is the same as wrapping once. */
  lemma WrapAdd(x: int, n: int)
    ensures Wrap32(Wrap32(x) + n) == Wrap32(x + n)
  {
    var q := x / Two32;
    assert x == q * Two32 + Wrap32(x);
    assert x + n == q * Two32 + (Wrap32(x) + n);
    ModShift(Wrap32(x) + n, q);
  }

  /** A small negative value wraps to the top of the range. */
  lemma WrapNegative(x: int)
    requires -Two32 <= x < 0
    ensures Wrap32(x) == x + Two32
  {
    ModShift(x + Two32, -1);
  }

  lemma ModShift(y: int, q: int)
    ensures (q * Two32 + y) % Two32 == y % Two32
  {
  }
}
