/**
  Rounding of exact amounts to whole cents: `Decimal.quantize(Decimal('0.01'),
  rounding=ROUND_HALF_UP)` on a quotient, and Python's `round(x, 2)`
  (round half to even) on an exact value.
*/
module Money {

  /**
    The integer nearest to `num / den`, ties rounded away from zero
    (ROUND_HALF_UP). With `num` and `den` in cents this is quantizing to 0.01.
  */
  function RoundHalfUp(num: int, den: int): (r: int)
    requires den > 0
    ensures num >= 0 ==> (2 * r - 1) * den <= 2 * num < (2 * r + 1) * den
    ensures num < 0 ==> (2 * r - 1) * den < 2 * num <= (2 * r + 1) * den
  {
    if num >= 0 then
      var q := (2 * num + den) / (2 * den);
      assert 2 * den * q <= 2 * num + den < 2 * den * q + 2 * den;
      q
    else
      var q := (-2 * num + den) / (2 * den);
      assert 2 * den * q <= -2 * num + den < 2 * den * q + 2 * den;
      -q
  }

  /** Quantizing a value that is already a whole number of cents changes nothing. */
  lemma {:induction false} RoundWholeIsExact(n: int)
    ensures RoundHalfUp(n, 1) == n
  {
    var r := RoundHalfUp(n, 1);
    assert 2 * r - 1 <= 2 * n <= 2 * r + 1;
  }

  /** Half-up rounding is determined by its contract: it is the unique such integer. */
  lemma {:induction false} RoundHalfUpUnique(num: int, den: int, r': int)
    requires den > 0 && num >= 0
    requires (2 * r' - 1) * den <= 2 * num < (2 * r' + 1) * den
    ensures RoundHalfUp(num, den) == r'
  {
    var r := RoundHalfUp(num, den);
    assert (2 * r - 1) * den <= 2 * num < (2 * r' + 1) * den;
    assert (2 * r' - 1) * den <= 2 * num < (2 * r + 1) * den;
    ScaledLess(2 * r - 1, 2 * r' + 1, den);
    ScaledLess(2 * r' - 1, 2 * r + 1, den);
  }

  /** Dividing both sides of a strict inequality by a positive factor. */
  lemma ScaledLess(a: int, b: int, den: int)
    requires den > 0 && a * den < b * den
    ensures a < b
  {
    assert (b - a) * den > 0;
  }

  /**
    Python's `round(x, 2)` expressed in cents: the integer nearest to `100 * x`,
    ties to the even neighbour.
  */
  function RoundCentsHalfEven(x: real): (r: int)
    ensures -1.0 / 2.0 <= x * 100.0 - r as real <= 1.0 / 2.0
    ensures x * 100.0 - r as real == 1.0 / 2.0 ==> r % 2 == 0
    ensures r as real - x * 100.0 == 1.0 / 2.0 ==> r % 2 == 0
  {
    var y := x * 100.0;
    var f := y.Floor;
    var frac := y - f as real;
    if frac < 1.0 / 2.0 then f
    else if frac > 1.0 / 2.0 then f + 1
    else if f % 2 == 0 then f
    else f + 1
  }
}
