/** The two integer helpers of functions.go: `division`, which returns Go's
    truncated quotient and remainder or an error, and the variadic `sum`.
    Go's `int` is 64 bits wide here, so results wrap around modulo 2^64. */
module Functions {
  import opened Wrappers
  import Arith
  import opened GoInt

  const DIVIDE_BY_ZERO := "Cannot divide by zero"

  /** The three results of `division`: quotient, remainder and error (None is nil). */
  datatype Division = Division(quotient: Int64, remainder: Int64, err: Option<string>)

  function Abs(x: int): nat { if x < 0 then -x else x }

  /** Go's `/`: the exact quotient rounded toward zero (the magnitude is
      the floor of |n| / |d|, the sign that of n * d). */
  function TruncQuot(n: int, d: int): int
    requires d != 0
  {
    WithSign(n, d, Abs(n) / Abs(d))
  }

  /** A magnitude given the sign of `n * d`. */
  function WithSign(n: int, d: int, q: int): int
  {
    if (n < 0) == (d < 0) then q else -q
  }

  /** Go's `%`: what is left after the truncated quotient, so that
      `TruncQuot(n, d) * d + TruncRem(n, d) == n`. */
  function TruncRem(n: int, d: int): int
    requires d != 0
  {
    n - TruncQuot(n, d) * d
  }

  /** A signed magnitude times the divisor carries the sign of the dividend. */
  lemma WithSignTimes(n: int, d: int, q: int)
    requires q >= 0
    ensures Abs(WithSign(n, d, q)) == q
    ensures WithSign(n, d, q) * d == if n < 0 then -(q * Abs(d)) else q * Abs(d)
  {
    var b: int := Abs(d);
    var t := WithSign(n, d, q);
    if n >= 0 && d >= 0 {
      assert t * d == q * b by { assert t == q && d == b; }
    } else if n >= 0 && d < 0 {
      assert t * d == q * b by { assert t == -q && d == -b; SignedProducts(q, b); }
    } else if n < 0 && d >= 0 {
      assert t * d == -(q * b) by { assert t == -q && d == b; SignedProducts(q, b); }
    } else {
      assert t * d == -(q * b) by { assert t == q && d == -b; SignedProducts(q, b); }
    }
  }

  lemma SignedProducts(x: int, y: int)
    ensures (-x) * (-y) == x * y && (-x) * y == -(x * y) && x * (-y) == -(x * y)
  {
  }

  /** `TruncRem` is smaller than the divisor in magnitude and has the sign of
      the dividend or is zero; the quotient never overshoots the dividend. */
  lemma TruncRemBounds(n: int, d: int)
    requires d != 0
    ensures Abs(TruncRem(n, d)) < Abs(d)
    ensures TruncRem(n, d) == 0 || (TruncRem(n, d) < 0) == (n < 0)
    ensures Abs(TruncQuot(n, d)) * Abs(d) <= Abs(n)
  {
    var a: int, b: int := Abs(n), Abs(d);
    var q: int, m: int := a / b, a % b;
    assert a == q * b + m && 0 <= m < b;
    WithSignTimes(n, d, q);
    if n >= 0 {
      assert TruncRem(n, d) == m;
    } else {
      assert TruncRem(n, d) == -m;
    }
  }

  /** Every integer pair (q, r) that satisfies Go's defining equation and the
      sign and magnitude rule for the remainder is the truncated one. */
  lemma TruncUnique(n: int, d: int, q: int, r: int)
    requires d != 0 && q * d + r == n && Abs(r) < Abs(d)
    requires r == 0 || (r < 0) == (n < 0)
    ensures q == TruncQuot(n, d) && r == TruncRem(n, d)
  {
    var m := Abs(r);
    var qa := if (n < 0) == (d < 0) then q else -q;
    assert Abs(n) == qa * Abs(d) + m by {
      if n >= 0 && d > 0 {
      } else if n >= 0 && d < 0 {
        assert q * d == (-q) * Abs(d);
      } else if n < 0 && d > 0 {
        assert q * d == -((-q) * Abs(d));
      } else {
        assert q * d == -(q * Abs(d));
      }
    }
    Arith.ModUnique(Abs(n), Abs(d), qa, m);
  }

  /** Floor division of a natural number by a positive one does not grow it,
      and strictly shrinks a positive one when the divisor is at least 2. */
  lemma DivShrinks(a: int, b: int)
    requires a >= 0 && b >= 1
    ensures 0 <= a / b <= a
    ensures b >= 2 && a > 0 ==> a / b < a
  {
    var q := a / b;
    assert a == q * b + a % b && a % b >= 0;
    if q >= 1 {
      Arith.MulAtLeast(q, b);
      assert q * b == q * (b - 1) + q;
      if b >= 2 {
        Arith.MulAtLeast(q, b - 1);
      }
    }
  }

  /** Apart from MinInt64 / -1, the truncated quotient of two 64-bit integers
      is itself a 64-bit integer. */
  lemma QuotientFits(n: Int64, d: Int64)
    requires d != 0 && !(n == MIN_INT64 && d == -1)
    ensures MIN_INT64 <= TruncQuot(n, d) <= MAX_INT64
  {
    var q := Abs(n) / Abs(d);
    DivShrinks(Abs(n), Abs(d));
    WithSignTimes(n, d, q);
    if q == -MIN_INT64 {
      assert Abs(n) == -MIN_INT64 && n == MIN_INT64 && Abs(d) == 1;
      assert d == 1;
    }
  }

  /** The one overflowing case: MinInt64 / -1 is 2^63, which wraps to MinInt64. */
  lemma QuotientOverflow()
    ensures TruncQuot(MIN_INT64, -1) == -MIN_INT64
    ensures TruncRem(MIN_INT64, -1) == 0
    ensures Wrap(-MIN_INT64) == MIN_INT64
  {
    WrapShift(MIN_INT64, 1);
  }

  /** `division`: (0, 0, error) for a zero denominator, otherwise Go's
      truncated quotient and remainder with a nil error. The only quotient
      that does not fit in 64 bits, MinInt64 / -1, wraps to MinInt64 with
      remainder 0, as Go specifies. */
  function Divide(numerator: Int64, denominator: Int64): (r: Division)
    ensures denominator == 0 ==> r == Division(0, 0, Some(DIVIDE_BY_ZERO))
    ensures denominator != 0 ==> r.err == None
    ensures denominator != 0 ==> Wrap(r.quotient * denominator + r.remainder) == numerator
    ensures denominator != 0 && !(numerator == MIN_INT64 && denominator == -1) ==>
              r.quotient * denominator + r.remainder == numerator
    ensures denominator != 0 ==> Abs(r.remainder) < Abs(denominator)
    ensures denominator != 0 ==> r.remainder == 0 || (r.remainder < 0) == (numerator < 0)
    ensures denominator != 0 && !(numerator == MIN_INT64 && denominator == -1) ==>
              Abs(r.quotient) * Abs(denominator) <= Abs(numerator)
  {
    if denominator == 0 then
      Division(0, 0, Some(DIVIDE_BY_ZERO))
    else if numerator == MIN_INT64 && denominator == -1 then
      QuotientOverflow();
      WrapShift(MIN_INT64, 1);
      Division(Wrap(TruncQuot(numerator, denominator)), TruncRem(numerator, denominator), None)
    else
      QuotientFits(numerator, denominator);
      TruncRemBounds(numerator, denominator);
      Division(TruncQuot(numerator, denominator), TruncRem(numerator, denominator), None)
  }

  /** The example in functions.go: 12 / 3 gives quotient 4 and remainder 0. */
  lemma DivideTwelveByThree()
    ensures Divide(12, 3) == Division(4, 0, None)
  {
  }

  /** The mathematical sum of a sequence. */
  function SeqSum(nums: seq<int>): int
  {
    if nums == [] then 0 else SeqSum(nums[..|nums| - 1]) + nums[|nums| - 1]
  }

  /** `sum`: adds the arguments one by one into `total`, each addition
      wrapping around like Go's 64-bit `int`. */
  method Sum(nums: seq<Int64>) returns (total: Int64)
    ensures total == Wrap(SeqSum(nums))
    ensures MIN_INT64 <= SeqSum(nums) <= MAX_INT64 ==> total == SeqSum(nums)
    ensures nums == [] ==> total == 0
  {
    total := 0;
    for i := 0 to |nums|
      invariant total == Wrap(SeqSum(nums[..i]))
    {
      assert nums[..i + 1][..i] == nums[..i];
      WrapAdd(SeqSum(nums[..i]), nums[i]);
      total := Wrap(total + nums[i]);
    }
    assert nums[..|nums|] == nums;
  }

  /** The examples in functions.go: sum(1, 2, 3, 4) is 10 and sum(1, 2, 3) is 6. */
  lemma SumExamples()
    ensures Wrap(SeqSum([1, 2, 3, 4])) == 10
    ensures Wrap(SeqSum([1, 2, 3])) == 6
  {
    assert [1, 2, 3, 4][..3] == [1, 2, 3];
    assert [1, 2, 3][..2] == [1, 2];
    assert [1, 2][..1] == [1];
    assert [1][..0] == [];
  }
}
