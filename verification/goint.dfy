/** Facts about Dafny's Euclidean `%` and `/` that the models of Go's integer
    arithmetic (64-bit wrap-around, cyclic counters) rely on. */
module Arith {

  /** Division and remainder are determined by the defining equation. */
  lemma ModUnique(x: int, n: int, q: int, r: int)
    requires n > 0 && 0 <= r < n && x == q * n + r
    ensures x / n == q && x % n == r
  {
    var q', r' := x / n, x % n;
    assert x == q' * n + r' && 0 <= r' < n;
    if q' < q {
      assert (q - q') * n >= n by { MulAtLeast(q - q', n); }
      assert false;
    } else if q < q' {
      assert (q' - q) * n >= n by { MulAtLeast(q' - q, n); }
      assert false;
    }
  }

  lemma MulAtLeast(k: int, n: int)
    requires k >= 1 && n > 0
    ensures k * n >= n
  {
    assert k * n == (k - 1) * n + n;
    assert (k - 1) * n >= 0;
  }

  /** Adding a multiple of the modulus does not change the remainder. */
  lemma ModShiftMultiple(x: int, k: int, n: int)
    requires n > 0
    ensures (x + k * n) % n == x % n
  {
    ModUnique(x + k * n, n, x / n + k, x % n);
  }

  /** The remainder of `s + j`, for a step `j` smaller than the modulus. */
  lemma ModAddSmall(s: int, j: int, n: int)
    requires n > 0 && 0 <= j < n
    ensures (s + j) % n == if s % n + j < n then s % n + j else s % n + j - n
  {
    if s % n + j < n {
      ModUnique(s + j, n, s / n, s % n + j);
    } else {
      ModUnique(s + j, n, s / n + 1, s % n + j - n);
    }
  }
}

/** Go's `int`, 64 bits wide, and its two's-complement wrap-around. */
module GoInt {
  import Arith

  const MIN_INT64: int := -0x8000_0000_0000_0000
  const MAX_INT64: int := 0x7FFF_FFFF_FFFF_FFFF
  const TWO_TO_64: int := 0x1_0000_0000_0000_0000

  /** Go's `int` on a 64-bit platform. */
  type Int64 = x: int | -0x8000_0000_0000_0000 <= x <= 0x7FFF_FFFF_FFFF_FFFF

  /** Two's-complement wrap-around of an integer into the range of `Int64`. */
  function Wrap(x: int): (w: Int64)
    ensures MIN_INT64 <= x <= MAX_INT64 ==> w == x
    ensures (w - x) % TWO_TO_64 == 0
  {
    Arith.ModShiftMultiple(x + 0x8000_0000_0000_0000, -((x + 0x8000_0000_0000_0000) / TWO_TO_64), TWO_TO_64);
    if MIN_INT64 <= x <= MAX_INT64 then
      Arith.ModUnique(x + 0x8000_0000_0000_0000, TWO_TO_64, 0, x + 0x8000_0000_0000_0000);
      x
    else
      (x + 0x8000_0000_0000_0000) % TWO_TO_64 - 0x8000_0000_0000_0000
  }

  /** Wrapping once more after adding does not change the result. */
  lemma WrapAdd(a: int, b: int)
    ensures Wrap(Wrap(a) + b) == Wrap(a + b)
  {
    var k := (Wrap(a) - a) / TWO_TO_64;
    assert Wrap(a) == a + k * TWO_TO_64;
    WrapShift(a + b, k);
  }

  lemma WrapShift(x: int, k: int)
    ensures Wrap(x + k * TWO_TO_64) == Wrap(x)
  {
    var h := 0x8000_0000_0000_0000;
    var y := x + h;
    Arith.ModShiftMultiple(y, k, TWO_TO_64);
    if MIN_INT64 <= x <= MAX_INT64 {
      Arith.ModUnique(y, TWO_TO_64, 0, y);
    }
    if MIN_INT64 <= x + k * TWO_TO_64 <= MAX_INT64 {
      Arith.ModUnique(y + k * TWO_TO_64, TWO_TO_64, 0, y + k * TWO_TO_64);
    }
  }
}
