/** Java's 64-bit `long` arithmetic: the range, two's-complement wrap-around,
    the overflow-checked `Math.addExact`/`Math.multiplyExact`, and `/`, `%`
    rounding toward zero. */
module JavaLong {
  import opened Wrappers
  import opened Errors

  const LONG_MIN := -0x8000_0000_0000_0000
  const LONG_MAX := 0x7FFF_FFFF_FFFF_FFFF
  const TWO_TO_64 := 0x1_0000_0000_0000_0000

  /** The message of the `ArithmeticException` an exact operation throws. */
  const LONG_OVERFLOW := "long overflow"

  predicate InLong(x: int) { LONG_MIN <= x <= LONG_MAX }

  /** A value of Java type `long`. */
  type Long = x: int | LONG_MIN <= x <= LONG_MAX

  /** Two's-complement reduction to 64 bits: `Number.toLong()` of an
      integral value, and the result of an unchecked `long` operation. */
  function ToLong(x: int): (r: Long)
    ensures (r - x) % TWO_TO_64 == 0
    ensures InLong(x) ==> r == x
  {
    (x - LONG_MIN) % TWO_TO_64 + LONG_MIN
  }

  /** `Math.addExact`: the sum, or an `ArithmeticException` when it leaves the range. */
  function AddExact(a: Long, b: Long): (r: Try<Long>)
    ensures r.Success? <==> InLong(a + b)
    ensures r.Success? ==> r.value == a + b
    ensures r.Failure? ==> r.error == Arithmetic(LONG_OVERFLOW)
  {
    if InLong(a + b) then Success(a + b) else Failure(Arithmetic(LONG_OVERFLOW))
  }

  /** `Math.multiplyExact`: the product, or an `ArithmeticException` when it leaves the range. */
  function MultiplyExact(a: Long, b: Long): (r: Try<Long>)
    ensures r.Success? <==> InLong(a * b)
    ensures r.Success? ==> r.value == a * b
    ensures r.Failure? ==> r.error == Arithmetic(LONG_OVERFLOW)
  {
    if InLong(a * b) then Success(a * b) else Failure(Arithmetic(LONG_OVERFLOW))
  }

  /** Java's `/`, which rounds toward zero where Dafny's rounds down. */
  function JavaDiv(a: int, b: int): (q: int)
    requires b > 0
    ensures a >= 0 ==> q * b <= a < q * b + b
    ensures a < 0 ==> q * b - b < a <= q * b
    ensures a < 0 && a % b != 0 ==> q == a / b + 1
    ensures a >= 0 ==> 0 <= q <= a
    ensures a < 0 ==> a <= q <= 0
  {
    if a >= 0 then
      DivBounds(a, b);
      DivRange(a, b);
      a / b
    else
      DivBounds(-a, b);
      DivBounds(a, b);
      DivRange(-a, b);
      NegatedBounds(a, b, (-a) / b);
      -((-a) / b)
  }

  /** Dafny's `/` brackets the dividend between two consecutive multiples. */
  lemma DivBounds(a: int, b: int)
    requires b > 0
    ensures (a / b) * b <= a < (a / b) * b + b
    ensures a % b == 0 <==> (a / b) * b == a
  {
  }

  /** Multiples of a positive step are at least one step apart. */
  lemma MulStep(x: int, y: int, b: int)
    requires b > 0
    ensures x < y ==> x * b + b <= y * b
  {
    if x < y {
      var k := y - x - 1;
      MulNonNegative(k, b);
      assert y * b == x * b + k * b + b;
    }
  }

  lemma MulNonNegative(k: int, b: int)
    requires k >= 0 && b >= 0
    ensures k * b >= 0
  {
  }

  /** A multiple `m * b` at or below the dividend bounds the quotient from below. */
  lemma DivAtLeast(a: int, b: int, m: int)
    requires b > 0 && m * b <= a
    ensures m <= a / b
  {
    DivBounds(a, b);
    MulStep(a / b, m, b);
  }

  /** A multiple `m * b` above the dividend bounds the quotient from above. */
  lemma DivBelow(a: int, b: int, m: int)
    requires b > 0 && a < m * b
    ensures a / b < m
  {
    DivBounds(a, b);
    MulStep(m - 1, a / b, b);
    assert (m - 1) * b + b == m * b;
  }

  /** Dividing a natural number by a positive one does not increase it. */
  lemma DivRange(a: int, b: int)
    requires a >= 0 && b > 0
    ensures 0 <= a / b <= a
  {
    DivAtLeast(a, b, 0);
    DivBounds(a, b);
    MulNonNegative(a / b, b - 1);
    assert (a / b) * b == (a / b) * (b - 1) + a / b;
  }

  /** A quotient is fixed by the multiples bracketing the dividend. */
  lemma QuotientUnique(a: int, b: int, d: int, e: int)
    requires b > 0
    requires d * b <= a < d * b + b
    requires e * b <= a < e * b + b
    ensures d == e
  {
    MulStep(d, e, b);
    MulStep(e, d, b);
  }

  /** Rounding `-a` down and negating rounds `a` up. */
  lemma NegatedBounds(a: int, b: int, p: int)
    requires b > 0 && a < 0
    requires p * b <= -a < p * b + b
    requires (a / b) * b <= a < (a / b) * b + b
    ensures (-p) * b - b < a <= (-p) * b
    ensures a % b != 0 ==> -p == a / b + 1
  {
    assert (-p) * b == -(p * b);
    if a % b != 0 {
      DivBounds(a, b);
      var d := a / b + 1;
      assert (d - 1) * b == d * b - b;
      assert (-p - 1) * b == (-p) * b - b;
      QuotientUnique(a - 1, b, d - 1, -p - 1);
    }
  }

  /** Java's `%`, whose result takes the sign of the dividend. */
  function JavaRem(a: int, b: int): (m: int)
    requires b > 0
    ensures JavaDiv(a, b) * b + m == a
    ensures a >= 0 ==> 0 <= m < b
    ensures a < 0 ==> -b < m <= 0
  {
    a - JavaDiv(a, b) * b
  }
}
