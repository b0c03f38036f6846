/** Facts about Dafny's integer division and remainder (rounding down, remainder never negative). */
module Arith {
  /** A product of a positive factor and one at least 1 is at least the first. */
  lemma MulAtLeast(d: int, n: int)
    requires n > 0 && d >= 1
    ensures d * n >= n
  {
    var e := d - 1;
    assert d * n == e * n + n;
  }

  /** The quotient and remainder are the one pair with `x == q * n + r` and `r` in `[0, n)`. */
  lemma DivModUnique(x: int, n: int, q: int, r: int)
    requires n > 0 && 0 <= r < n && x == q * n + r
    ensures x % n == r && x / n == q
  {
    var q', r' := x / n, x % n;
    assert (q - q') * n == r' - r;
    if q > q' {
      MulAtLeast(q - q', n);
    } else if q' > q {
      MulAtLeast(q' - q, n);
    }
  }
}
