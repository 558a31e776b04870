/** Small building blocks shared by the profiler model: optional values, results
    with an error, and the integer division of C++. */
module Basics {

  datatype Option<+T> = None | Some(value: T)

  datatype Result<+T, +E> = Success(value: T) | Failure(error: E)

  /** Division of `x` by a positive `m` as C++ performs it on signed integers:
      the quotient is truncated toward zero (Dafny's own `/` rounds toward
      negative infinity for a negative dividend). */
  function TruncDiv(x: int, m: int): (q: int)
    requires m > 0
    ensures x >= 0 ==> q >= 0
    ensures x < 0 ==> q <= 0
  {
    if x >= 0 then x / m else -((-x) / m)
  }

  /** The quotient leaves a remainder in `[0, m)` for a non-negative
      dividend and in `(-m, 0]` for a negative one. */
  lemma TruncDivRemainder(x: int, m: int)
    requires m > 0
    ensures var q := TruncDiv(x, m);
      (x >= 0 ==> q * m <= x < q * m + m) && (x < 0 ==> q * m - m < x <= q * m)
  {
  }

  /** A truncated quotient stays between any two integer bounds that bracket
      the exact quotient. */
  lemma TruncDivBounds(x: int, m: int, lo: int, hi: int)
    requires m > 0
    requires lo * m <= x <= hi * m
    ensures lo <= TruncDiv(x, m) <= hi
  {
    TruncDivRemainder(x, m);
    QuotientBounds(x, m, TruncDiv(x, m), lo, hi);
  }

  /** Any quotient whose remainder is truncated toward zero. */
  lemma QuotientBounds(x: int, m: int, q: int, lo: int, hi: int)
    requires m > 0
    requires lo * m <= x <= hi * m
    requires x >= 0 ==> q * m <= x < q * m + m
    requires x < 0 ==> q * m - m < x <= q * m
    ensures lo <= q <= hi
  {
    if x >= 0 {
      assert lo * m < (q + 1) * m;
    } else {
      assert (q - 1) * m < hi * m;
    }
  }

  /** Dividing an exact multiple loses nothing, whatever the sign. */
  lemma TruncDivExact(q: int, m: int)
    requires m > 0
    ensures TruncDiv(q * m, m) == q
  {
    TruncDivBounds(q * m, m, q, q);
  }
}
