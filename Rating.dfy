/**
 * The rating formula of ShipService.createShip and updateShip:
 * `80 * speed * (isUsed ? 0.5 : 1) / (3019 - year + 1)`, kept to two decimal
 * places. Arithmetic is over `real`; the two-decimal step is `Round2`.
 */
module Rating {

  /** `x` has at most two decimal places. */
  predicate IsCents(x: real) {
    (x * 100.0).Floor as real == x * 100.0
  }

  /** `x` lies exactly halfway between two neighbouring hundredths. */
  predicate IsTie(x: real) {
    x * 100.0 - (x * 100.0).Floor as real == 0.5
  }

  /**
   * Rounding to two decimal places, ties to the even neighbour, which is the
   * default rounding mode of a `DecimalFormat` built from the pattern "#.##".
   */
  function Round2(x: real): (r: real)
    ensures IsCents(r)
    ensures -0.005 <= r - x <= 0.005
    ensures !IsTie(x) ==> -0.005 < r - x < 0.005
    ensures IsTie(x) ==> (r * 100.0).Floor % 2 == 0
  {
    var scaled := x * 100.0;
    var n := scaled.Floor;
    var frac := scaled - n as real;
    var k := if frac > 0.5 || (frac == 0.5 && n % 2 != 0) then n + 1 else n;
    CentsOf(k);
    assert -0.5 <= k as real - scaled <= 0.5;
    k as real / 100.0
  }

  /** A whole number of hundredths has two decimals. */
  lemma CentsOf(k: int)
    ensures IsCents(k as real / 100.0)
    ensures (k as real / 100.0) * 100.0 == k as real
  {
    assert (k as real / 100.0) * 100.0 == k as real;
  }

  /** A value that already has two decimals is left alone. */
  lemma Round2OfCents(x: real)
    requires IsCents(x)
    ensures Round2(x) == x
  {
  }

  /** Rounding never crosses a two-decimal bound from below... */
  lemma Round2AtMost(x: real, c: real)
    requires x <= c && IsCents(c)
    ensures Round2(x) <= c
  {
    var n := (x * 100.0).Floor;
    var m := (c * 100.0).Floor;
    assert n <= m;
    if n == m {
      assert x * 100.0 == n as real;
    }
  }

  /** ...nor from above. */
  lemma Round2AtLeast(x: real, c: real)
    requires c <= x && IsCents(c)
    ensures c <= Round2(x)
  {
    var n := (x * 100.0).Floor;
    var m := (c * 100.0).Floor;
    assert m <= n;
  }

  /** The factor that halves the rating of a used ship. */
  function UsageFactor(isUsed: bool): real {
    if isUsed then 0.5 else 1.0
  }

  /** The rating formula before rounding; the denominator is at least 1. */
  function RawRating(speed: real, isUsed: bool, year: int): real
    requires year <= 3019
  {
    80.0 * speed * UsageFactor(isUsed) / (3019 - year + 1) as real
  }

  /** The stored rating: the formula rounded to two decimals. */
  function ShipRating(speed: real, isUsed: bool, year: int): real
    requires year <= 3019
  {
    Round2(RawRating(speed, isUsed, year))
  }

  /**
   * For a speed the validator accepts and a year of an accepted production
   * date, the rating lies between 0 and 79.2 (a new ship of speed 0.99 made
   * in 3019).
   */
  lemma RatingRange(speed: real, isUsed: bool, year: int)
    requires 0.01 <= speed <= 0.99
    requires 2800 <= year <= 3019
    ensures 0.0 <= ShipRating(speed, isUsed, year) <= 79.2
  {
    var numerator := 80.0 * speed * UsageFactor(isUsed);
    assert 0.0 < numerator <= 79.2 by {
      if isUsed { assert numerator == 40.0 * speed; } else { assert numerator == 80.0 * speed; }
    }
    var quotient := RawRating(speed, isUsed, year);
    QuotientBounds(numerator, (3019 - year + 1) as real);
    Round2AtMost(quotient, 79.2);
    Round2AtLeast(quotient, 0.0);
  }

  lemma QuotientBounds(n: real, d: real)
    requires 0.0 < n && 1.0 <= d
    ensures 0.0 < n / d <= n
  {
    var q := n / d;
    assert n == q * d;
    assert 0.0 < q;
    assert q * (d - 1.0) >= 0.0;
  }

  /** The worked example: a new ship of speed 0.5 made in 3019 rates 40. */
  lemma RatingExample()
    ensures ShipRating(0.5, false, 3019) == 40.0
  {
    Round2OfCents(40.0);
  }
}
