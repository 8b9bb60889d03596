/** 128-bit rounding division: nearest integer, ties away from zero. */
module Rounding {

  const INT128_MAX: int := 0x7FFF_FFFF_FFFF_FFFF_FFFF_FFFF_FFFF_FFFF
  const RAW_MAX: int := 0x7FFF_FFFF_FFFF_FFFF

  predicate IsInt128(x: int) {
    -INT128_MAX - 1 <= x <= INT128_MAX
  }

  predicate FitsRaw(x: int) {
    -RAW_MAX - 1 <= x <= RAW_MAX
  }

  function Abs(x: int): int {
    if x >= 0 then x else -x
  }

  /** Division that truncates toward zero. */
  function TruncDiv(n: int, d: int): int
    requires d > 0
  {
    if n >= 0 then n / d else -(-n / d)
  }

  function TruncMod(n: int, d: int): int
    requires d > 0
  {
    if n >= 0 then n % d else -(-n % d)
  }

  function RoundDivNearestAway(n: int, d: int): int
    requires d > 0
  {
    var quotient := TruncDiv(n, d);
    var remainder := Abs(TruncMod(n, d));
    var half := d / 2 + d % 2;
    if remainder >= half then quotient + (if n >= 0 then 1 else -1) else quotient
  }

  /** q is a nearest integer to n/d, and on a tie the one farther from zero. */
  ghost predicate IsNearestAway(n: int, d: int, q: int) {
    2 * Abs(n - q * d) <= d && (2 * Abs(n - q * d) == d ==> Abs(q) * d > Abs(n))
  }

  /** For n >= 0, the half-open interval that pins q down. */
  ghost predicate Brackets(n: int, d: int, q: int) {
    (2 * q - 1) * d <= 2 * n < (2 * q + 1) * d
  }

  lemma DivMod(n: int, d: int)
    requires d > 0
    ensures n == (n / d) * d + n % d && 0 <= n % d < d
  {
  }

  lemma RoundBrackets(n: int, d: int)
    requires n >= 0 && d > 0
    ensures Brackets(n, d, RoundDivNearestAway(n, d)) && RoundDivNearestAway(n, d) >= 0
  {
    var q, r := n / d, n % d;
    DivMod(n, d);
    assert (2 * q - 1) * d == 2 * (q * d) - d;
    assert (2 * q + 1) * d == 2 * (q * d) + d;
    assert (2 * (q + 1) + 1) * d == 2 * (q * d) + 3 * d;
    assert (2 * (q + 1) - 1) * d == 2 * (q * d) + d;
  }

  lemma BracketsUnique(n: int, d: int, q: int, r: int)
    requires d > 0 && Brackets(n, d, q) && Brackets(n, d, r)
    ensures q == r
  {
    if q < r {
      MulLe(2 * q + 1, 2 * r - 1, d);
    } else if r < q {
      MulLe(2 * r + 1, 2 * q - 1, d);
    }
  }

  lemma MulLe(a: int, b: int, c: int)
    requires a <= b && c >= 0
    ensures a * c <= b * c
  {
    assert (b - a) * c >= 0;
  }

  lemma BracketsAreNearest(n: int, d: int, q: int)
    requires n >= 0 && d > 0 && q >= 0 && Brackets(n, d, q)
    ensures IsNearestAway(n, d, q)
  {
    assert (2 * q - 1) * d == 2 * (q * d) - d && (2 * q + 1) * d == 2 * (q * d) + d;
  }

  lemma NearestNegated(n: int, d: int, q: int)
    requires IsNearestAway(n, d, q)
    ensures IsNearestAway(-n, d, -q)
  {
    assert (-q) * d == -(q * d);
  }

  /** The result is the nearest integer, ties away from zero, for either sign of the numerator. */
  lemma RoundIsNearestAway(n: int, d: int)
    requires d > 0
    ensures IsNearestAway(n, d, RoundDivNearestAway(n, d))
  {
    var m := Abs(n);
    var p := RoundDivNearestAway(m, d);
    RoundBrackets(m, d);
    BracketsAreNearest(m, d, p);
    if n < 0 {
      NearestNegated(m, d, p);
      assert RoundDivNearestAway(n, d) == -p;
    }
  }

  /** At most one integer is nearest with ties away from zero. */
  lemma NearestAwayUnique(n: int, d: int, q: int, r: int)
    requires d > 0 && IsNearestAway(n, d, q) && IsNearestAway(n, d, r)
    ensures q == r
  {
    if n >= 0 {
      NearestAwayBrackets(n, d, q);
      NearestAwayBrackets(n, d, r);
      BracketsUnique(n, d, q, r);
    } else {
      assert (-q) * d == -(q * d) && (-r) * d == -(r * d);
      NearestAwayBrackets(-n, d, -q);
      NearestAwayBrackets(-n, d, -r);
      BracketsUnique(-n, d, -q, -r);
    }
  }

  lemma NearestAwayBrackets(n: int, d: int, q: int)
    requires n >= 0 && d > 0 && IsNearestAway(n, d, q)
    ensures Brackets(n, d, q)
  {
    assert (2 * q - 1) * d == 2 * (q * d) - d && (2 * q + 1) * d == 2 * (q * d) + d;
    if q < 0 {
      MulLe(q, -1, d);
    }
    assert q >= 0 ==> Abs(q) * d == q * d;
  }

  /** No intermediate of the division leaves the 128-bit range. */
  lemma RoundStaysInRange(n: int, d: int)
    requires IsInt128(n) && 0 < d && IsInt128(d)
    ensures IsInt128(TruncDiv(n, d)) && IsInt128(TruncMod(n, d)) && IsInt128(Abs(TruncMod(n, d)))
    ensures IsInt128(d / 2 + d % 2) && IsInt128(RoundDivNearestAway(n, d))
  {
    var m := Abs(n);
    DivMod(m, d);
    MulLe(1, d, m / d);
    if d == 1 {
      assert m % d == 0;
    } else {
      MulLe(2, d, m / d);
      assert (m / d) * 2 <= m;
    }
  }

  // ----- the algebra the callers use -----

  lemma RoundOf(n: int, d: int, q: int)
    requires n >= 0 && d > 0 && Brackets(n, d, q)
    ensures RoundDivNearestAway(n, d) == q
  {
    RoundBrackets(n, d);
    BracketsUnique(n, d, q, RoundDivNearestAway(n, d));
  }

  lemma RoundExact(q: int, d: int)
    requires q >= 0 && d > 0
    ensures q * d >= 0 && RoundDivNearestAway(q * d, d) == q
  {
    MulLe(0, q, d);
    assert (2 * q - 1) * d == 2 * (q * d) - d && (2 * q + 1) * d == 2 * (q * d) + d;
    RoundOf(q * d, d, q);
  }

  lemma MulAssoc(a: int, b: int, c: int)
    ensures a * b * c == a * (b * c) == a * c * b
  {
  }

  lemma BracketsOrdered(n: int, d: int, q: int, m: int, e: int, r: int)
    requires d > 0 && e > 0 && n * e <= m * d
    requires Brackets(n, d, q) && Brackets(m, e, r)
    ensures q <= r
  {
    if r < q {
      var k := 2 * r + 1;
      MulLe(k, 2 * q - 1, d);
      MulLe(k * d, 2 * n, e);
      MulLt(2 * m, k * e, d);
      MulAssoc(k, d, e);
      MulAssoc(2, n, e);
      MulAssoc(2, m, d);
      assert false;
    }
  }

  /** Rounding is monotone in the exact rational. */
  lemma RoundMonotone(n: int, d: int, m: int, e: int)
    requires n >= 0 && m >= 0 && d > 0 && e > 0 && n * e <= m * d
    ensures RoundDivNearestAway(n, d) <= RoundDivNearestAway(m, e)
  {
    RoundBrackets(n, d);
    RoundBrackets(m, e);
    BracketsOrdered(n, d, RoundDivNearestAway(n, d), m, e, RoundDivNearestAway(m, e));
  }

  lemma MulLt(a: int, b: int, c: int)
    requires a < b && c > 0
    ensures a * c < b * c
  {
    MulLe(a + 1, b, c);
    assert (a + 1) * c == a * c + c;
  }

  lemma RoundShift(k: int, n: int, d: int)
    requires k >= 0 && n >= 0 && d > 0
    ensures k * d + n >= 0 && RoundDivNearestAway(k * d + n, d) == k + RoundDivNearestAway(n, d)
  {
    var q := RoundDivNearestAway(n, d);
    RoundBrackets(n, d);
    MulLe(0, k, d);
    assert (2 * (k + q) - 1) * d == 2 * (k * d) + (2 * q - 1) * d;
    assert (2 * (k + q) + 1) * d == 2 * (k * d) + (2 * q + 1) * d;
    RoundOf(k * d + n, d, k + q);
  }

  lemma BracketsScaled(n: int, d: int, q: int, c: int)
    requires c > 0 && Brackets(n, d, q)
    ensures Brackets(n * c, d * c, q)
  {
    MulLe((2 * q - 1) * d, 2 * n, c);
    MulLt(2 * n, (2 * q + 1) * d, c);
    MulAssoc(2 * q - 1, d, c);
    MulAssoc(2 * q + 1, d, c);
    MulAssoc(2, n, c);
  }

  lemma RoundCancel(n: int, d: int, c: int)
    requires n >= 0 && d > 0 && c > 0
    ensures n * c >= 0 && d * c > 0 && RoundDivNearestAway(n * c, d * c) == RoundDivNearestAway(n, d)
  {
    RoundBrackets(n, d);
    MulLe(0, n, c);
    MulLt(0, d, c);
    BracketsScaled(n, d, RoundDivNearestAway(n, d), c);
    RoundOf(n * c, d * c, RoundDivNearestAway(n, d));
  }

  lemma BracketsIgnoreTail(t: int, u: int, m: int, q: int)
    requires 0 <= u < m && Brackets(t, 10, q)
    ensures Brackets(t * m + u, 10 * m, q)
  {
    MulLe((2 * q - 1) * 10, 2 * t, m);
    MulLe(2 * t + 2, (2 * q + 1) * 10, m);
    MulAssoc(2 * q - 1, 10, m);
    MulAssoc(2 * q + 1, 10, m);
    MulAssoc(2, t, m);
    assert (2 * t + 2) * m == 2 * t * m + 2 * m;
  }

  /** One digit after the cut decides: what follows it never changes the rounding. */
  lemma RoundIgnoresTail(t: int, u: int, m: int)
    requires t >= 0 && 0 <= u < m
    ensures 10 * m > 0 && t * m + u >= 0
    ensures RoundDivNearestAway(t * m + u, 10 * m) == RoundDivNearestAway(t, 10)
  {
    RoundBrackets(t, 10);
    MulLe(0, t, m);
    BracketsIgnoreTail(t, u, m, RoundDivNearestAway(t, 10));
    RoundOf(t * m + u, 10 * m, RoundDivNearestAway(t, 10));
  }
}
