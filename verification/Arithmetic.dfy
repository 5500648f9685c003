/** Rounding a quotient of reals down. */
module Arithmetic {

  lemma FloorOfQuotient(x: real, width: real)
    requires width > 0.0
    ensures 0.0 <= x - (x / width).Floor as real * width < width
    ensures x >= 0.0 ==> (x / width).Floor >= 0
  {
    var q := x / width;
    assert q * width == x;
    Remainder(q, q.Floor as real, width, q * width, q.Floor as real * width);
    if x >= 0.0 {
      QuotientSign(q, width, x);
    }
  }

  lemma Remainder(q: real, low: real, scale: real, whole: real, part: real)
    requires low <= q < low + 1.0 && scale > 0.0 && whole == q * scale && part == low * scale
    ensures 0.0 <= whole - part < scale
  {
    var d := q - low;
    var rest := d * scale;
    assert 0.0 <= rest < 1.0 * scale;
    assert whole == part + rest;
  }

  lemma QuotientSign(q: real, width: real, x: real)
    requires width > 0.0 && q * width == x && x >= 0.0
    ensures q >= 0.0
  {
  }

  /** Two multiples of a width that are less than a width apart are the same one. */
  lemma SameMultiple(j: int, k: int, width: real, x: real)
    requires width > 0.0
    requires j as real * width <= x < j as real * width + width
    requires k as real * width <= x < k as real * width + width
    ensures j == k
  {
    if j < k {
      Apart(j, k, width, j as real * width, k as real * width);
    }
    if k < j {
      Apart(k, j, width, k as real * width, j as real * width);
    }
  }

  lemma Apart(j: int, k: int, width: real, low: real, high: real)
    requires j < k && width > 0.0 && low == j as real * width && high == k as real * width
    ensures high >= low + width
  {
    var gap := (k - j) as real;
    var rest := gap * width;
    assert rest >= 1.0 * width;
    assert gap == k as real - j as real;
    assert high == low + rest;
  }
}
