/**
 The C++ conversions and integer operators the engine relies on, written out
 because Dafny's `int` is unbounded and its `/` and `%` are Euclidean.
 */
module CppArith {

  function Max(a: int, b: int): int { if a < b then b else a }

  function Min(a: int, b: int): int { if a < b then a else b }

  /** `static_cast<int>` of a double: truncation toward zero. */
  function Trunc(x: real): (n: int)
    ensures 0.0 <= x ==> 0 <= n && n as real <= x < n as real + 1.0
    ensures x < 0.0 ==> n <= 0 && n as real - 1.0 < x <= n as real
  {
    if x >= 0.0 then x.Floor else -((-x).Floor)
  }

  /** C++ `a / d` on `int` for a positive divisor: the quotient truncated toward zero. */
  function CDiv(a: int, d: int): (q: int)
    requires d > 0
    ensures 0 <= a ==> 0 <= q && 0 <= a - d * q < d
    ensures a < 0 ==> q <= 0 && -d < a - d * q <= 0
  {
    if a >= 0 then
      FloorQuotientBounds(a, d);
      a / d
    else
      FloorQuotientBounds(-a, d);
      -((-a) / d)
  }

  /** Euclidean division of a non-negative numerator: a non-negative quotient leaving a remainder in [0, d). */
  lemma FloorQuotientBounds(n: int, d: int)
    requires n >= 0 && d > 0
    ensures 0 <= n / d
    ensures 0 <= n - d * (n / d) < d
  {
    assert n == d * (n / d) + n % d;
  }

  /** C++ `a % d` on `int` for a positive divisor: the remainder takes the sign of `a`. */
  function CRem(a: int, d: int): (r: int)
    requires d > 0
    ensures 0 <= a ==> 0 <= r < d
    ensures a < 0 ==> -d < r <= 0
  {
    a - d * CDiv(a, d)
  }

  /**
   `n >> 6` on `int`: an arithmetic shift, which is floor division by 64
   (Dafny's `/` by a positive divisor is floor division).
   */
  function Shr6(n: int): int { n / 64 }

  /** `(n >> 6) << 6`: the grid-line snap used to start both marches. */
  function Snap64(n: int): int { Shr6(n) * 64 }

  /** The snap is the largest multiple of 64 not above n. */
  lemma SnapIsLargestMultiple(n: int)
    ensures Snap64(n) % 64 == 0
    ensures Snap64(n) <= n < Snap64(n) + 64
    ensures forall m :: m % 64 == 0 && m <= n ==> m <= Snap64(n)
  {
    forall m | m % 64 == 0 && m <= n
      ensures m <= Snap64(n)
    {
      assert m == (m / 64) * 64;
    }
  }

  /** Truncation preserves order on non-negative values. */
  lemma TruncMonotone(x: real, y: real)
    requires 0.0 <= x <= y
    ensures Trunc(x) <= Trunc(y)
  {
  }

  /** A fixed non-negative numerator shrinks as its positive divisor grows. */
  lemma DivideAntitone(n: real, b1: real, b2: real)
    requires 0.0 <= n && 0.0 < b1 <= b2
    ensures n / b2 <= n / b1
  {
    assert n / b2 * b2 == n;
    assert n / b1 * b1 == n;
  }
}
