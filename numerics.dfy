/** The JavaScript numeric built-ins the sizing engine relies on, over exact reals:
    Math.ceil, Math.max, Math.sqrt, Math.PI, and Number.prototype.toFixed read back
    with parseFloat. IEEE-754 effects (binary representation, NaN, Infinity) are
    not modelled. */
module Numerics {

  /** Math.ceil: the least integer that is not below x. */
  function Ceil(x: real): (n: int)
    ensures x <= n as real
    ensures (n - 1) as real < x
  {
    if x.Floor as real == x then x.Floor else x.Floor + 1
  }

  /** Math.max of two numbers: an upper bound of both that is one of them. */
  function Max(a: real, b: real): (m: real)
    ensures a <= m && b <= m
    ensures m == a || m == b
  {
    if a >= b then a else b
  }

  /** 10 to the power n. */
  function TenTo(n: nat): (p: real)
    ensures p >= 1.0
  {
    if n == 0 then 1.0 else 10.0 * TenTo(n - 1)
  }

  /** The scale of the last of `digits` decimals: 10^digits. The rounding
      contracts name the scale through this non-recursive function rather than
      through `TenTo` itself, so that the solver matches occurrences of the scale
      as they are instead of unfolding the recursion in each of them. */
  function Pow10(digits: nat): (p: real)
    ensures p >= 1.0
  {
    TenTo(digits)
  }

  /** The scales of one, two and three decimals. */
  lemma Pow10Values()
    ensures Pow10(1) == 10.0 && Pow10(2) == 100.0 && Pow10(3) == 1000.0
  {
    assert TenTo(1) == 10.0;
    assert TenTo(2) == 100.0;
  }

  /** The integer nearest to y, halves going up. */
  function NearestHalfUp(y: real): (k: int)
    ensures y - 0.5 < k as real <= y + 0.5
  {
    (y + 0.5).Floor
  }

  /** r is written with at most `digits` decimals. */
  predicate OnGrid(r: real, digits: nat) {
    r * Pow10(digits) == (r * Pow10(digits)).Floor as real
  }

  /** The number k * 10^-digits. */
  function FromUnits(k: int, digits: nat): (r: real)
    ensures r * Pow10(digits) == k as real
    ensures OnGrid(r, digits)
  {
    k as real / Pow10(digits)
  }

  /** The integer nearest to y; a tie goes up when `negative` is false and down
      when it is true. */
  function NearestTieAway(y: real, negative: bool): (k: int)
    ensures negative ==> k as real - 0.5 < y <= k as real + 0.5
    ensures !negative ==> k as real - 0.5 <= y < k as real + 0.5
  {
    if negative then -NearestHalfUp(-y) else NearestHalfUp(y)
  }

  /** `parseFloat(x.toFixed(digits))`: x rounded to `digits` decimals. How near
      the result is to x is stated by `RoundNearest`. */
  function Round(x: real, digits: nat): (r: real)
    ensures OnGrid(r, digits)
  {
    FromUnits(NearestTieAway(x * Pow10(digits), x < 0.0), digits)
  }

  /** The rounded value is the multiple of 10^-digits nearest to x: it lies within
      half a unit of the last digit from x, and a tie goes away from zero, because
      toFixed rounds the magnitude of x to the larger candidate and then puts the
      sign back. Rounding keeps non-negative values non-negative. */
  lemma RoundNearest(x: real, digits: nat)
    ensures -0.5 <= (Round(x, digits) - x) * Pow10(digits) <= 0.5
    ensures (Round(x, digits) - x) * Pow10(digits) == 0.5 ==> x >= 0.0
    ensures (Round(x, digits) - x) * Pow10(digits) == -0.5 ==> x < 0.0
    ensures x >= 0.0 ==> Round(x, digits) >= 0.0
  {
    var k := NearestTieAway(x * Pow10(digits), x < 0.0);
    assert Round(x, digits) == FromUnits(k, digits);
    RoundError(x, Pow10(digits), x * Pow10(digits), k, Round(x, digits));
  }

  /** Rounding a non-negative value never shows a negative one. */
  lemma RoundNonNegative(x: real, digits: nat)
    requires x >= 0.0
    ensures Round(x, digits) >= 0.0
  {
    RoundNearest(x, digits);
  }

  /** A product of two non-negative factors is non-negative. */
  lemma ProductNonNegative(a: real, b: real)
    requires a >= 0.0 && b >= 0.0
    ensures a * b >= 0.0
  {
  }

  /** The error of a rounded value, measured in units of the last digit, is the
      error of the integer it was rounded to. */
  lemma RoundError(x: real, scale: real, y: real, k: int, r: real)
    requires scale >= 1.0 && y == x * scale && r * scale == k as real
    requires x < 0.0 ==> k as real - 0.5 < y <= k as real + 0.5
    requires x >= 0.0 ==> k as real - 0.5 <= y < k as real + 0.5
    ensures -0.5 <= (r - x) * scale <= 0.5
    ensures (r - x) * scale == 0.5 ==> x >= 0.0
    ensures (r - x) * scale == -0.5 ==> x < 0.0
    ensures x >= 0.0 ==> r >= 0.0
  {
    assert (r - x) * scale == k as real - y;
    if x >= 0.0 {
      assert y >= 0.0;
      assert k >= 0;
      assert r >= 0.0;
    }
  }

  /** The display of x with `digits` decimals is k * 10^-digits whenever x * 10^digits
      lies within half a unit of k (the upper half excluded); used to evaluate
      displays of values known only by bounds. */
  lemma RoundIs(x: real, digits: nat, k: int)
    requires x >= 0.0
    requires k as real - 0.5 <= x * Pow10(digits) < k as real + 0.5
    ensures Round(x, digits) == FromUnits(k, digits)
  {
    var y := x * Pow10(digits);
    var j := NearestTieAway(y, false);
    assert j - 1 < k < j + 1;
    assert Round(x, digits) == FromUnits(j, digits);
  }

  /** Math.sqrt, abstracted: any `sqrt` that returns the non-negative square root of
      every non-negative argument. */
  ghost predicate IsSqrt(sqrt: real -> real) {
    forall x: real :: x >= 0.0 ==> sqrt(x) >= 0.0 && sqrt(x) * sqrt(x) == x
  }

  /** A non-negative square root of x lies strictly between lo and hi when their
      squares do. */
  lemma RootBetween(s: real, x: real, lo: real, hi: real)
    requires s >= 0.0 && s * s == x
    requires lo >= 0.0 && lo * lo < x
    requires hi >= 0.0 && x < hi * hi
    ensures lo < s < hi
  {
  }

  /** Square roots strictly increase with their argument. */
  lemma SqrtStrictlyIncreasing(sqrt: real -> real, x: real, y: real)
    requires IsSqrt(sqrt)
    requires 0.0 <= x < y
    ensures sqrt(x) < sqrt(y)
  {
    var sx, sy := sqrt(x), sqrt(y);
    assert sx >= 0.0 && sx * sx == x;
    assert sy >= 0.0 && sy * sy == y;
    assert (sy - sx) * (sy + sx) == y - x;
    PositiveFactor(sy - sx, sy + sx);
  }

  /** A product that is positive, with a non-negative second factor, has a
      positive first factor. */
  lemma PositiveFactor(a: real, b: real)
    requires b >= 0.0 && a * b > 0.0
    ensures a > 0.0
  {
  }

  /** Math.PI, as the decimal rendering of the double. */
  const PI: real := 3.141592653589793

  /** The error of a product of two approximations, each within eps of a
      non-negative exact value. */
  lemma ProductOfApproximations(x: real, y: real, rx: real, ry: real, eps: real)
    requires x >= 0.0 && y >= 0.0 && eps >= 0.0
    requires -eps <= rx - x <= eps
    requires -eps <= ry - y <= eps
    ensures -(eps * (x + y) + eps * eps) <= rx * ry - x * y <= eps * (x + y) + eps * eps
  {
    var dx, dy := rx - x, ry - y;
    Expand(x, y, dx, dy);
    ScaledWithin(x, dy, eps);
    ScaledWithin(y, dx, eps);
    BothWithin(dx, dy, eps);
    assert eps * (x + y) == x * eps + y * eps;
  }

  lemma Expand(x: real, y: real, dx: real, dy: real)
    ensures (x + dx) * (y + dy) - x * y == x * dy + y * dx + dx * dy
  {
  }

  /** Scaling a value within eps of zero by a >= 0 keeps it within a * eps. */
  lemma ScaledWithin(a: real, d: real, eps: real)
    requires a >= 0.0 && -eps <= d <= eps
    ensures -(a * eps) <= a * d <= a * eps
  {
  }

  /** The product of two values within eps of zero is within eps * eps of zero. */
  lemma BothWithin(a: real, b: real, eps: real)
    requires -eps <= a <= eps && -eps <= b <= eps
    ensures -(eps * eps) <= a * b <= eps * eps
  {
    if a >= 0.0 {
      ScaledWithin(a, b, eps);
      assert a * eps <= eps * eps;
    } else {
      ScaledWithin(-a, b, eps);
      assert -a * eps <= eps * eps;
    }
  }
}
