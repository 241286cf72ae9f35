/** Arithmetic of doubles on the numbers met here: 0, or between 2^-95 and 2^65. There a double
    neither underflows nor overflows, so the exponent is left unbounded. */
module Rounding {
  const TWO_52: real := 4503599627370496.0

  /** Half a unit in the last place of a double in [1, 2): 2^-53. */
  const U: real := 1.0 / 9007199254740992.0

  /** `x` is within some units of relative error 2^-53 of `exact`. */
  predicate Near(x: real, exact: real, units: real) {
    exact - units * U * exact <= x <= exact + units * U * exact
  }

  /** The nearest integer, ties to even. */
  function Nearest(z: real): (n: int)
    requires z >= 0.0
    ensures -0.5 <= n as real - z <= 0.5
  {
    var f := z.Floor;
    var part := z - f as real;
    if part < 0.5 then f
    else if part > 0.5 then f + 1
    else if f % 2 == 0 then f else f + 1
  }

  /** Round to nearest, ties to even, with 53 significant bits (section 4.3.1 of IEEE 754-2019). */
  function Round(x: real): real
    requires x >= 0.0
    decreases 0.0 < x < 1.0, if x >= 1.0 then x.Floor else if x > 0.0 then (1.0 / x).Floor else 0
  {
    if x == 0.0 then 0.0
    else if x < 1.0 then HalfIsSmaller(x); Round(2.0 * x) / 2.0
    else if x >= 2.0 then 2.0 * Round(x / 2.0)
    else Nearest(x * TWO_52) as real / TWO_52
  }

  lemma HalfIsSmaller(x: real)
    requires 0.0 < x < 1.0
    ensures 2.0 * x < 1.0 ==> (1.0 / (2.0 * x)).Floor < (1.0 / x).Floor
  {
    if 2.0 * x < 1.0 {
      var y := 1.0 / x;
      assert 1.0 / (2.0 * x) == y / 2.0;
      assert y > 2.0;
    }
  }

  lemma NearestMonotone(a: real, b: real)
    requires 0.0 <= a <= b
    ensures Nearest(a) <= Nearest(b)
  {
  }

  lemma OnePlaceBounds(x: real)
    requires 1.0 <= x < 2.0
    ensures 1.0 <= Round(x) <= 2.0 && x - U <= Round(x) <= x + U
  {
    var z := x * TWO_52;
    NearestBetween(4503599627370496, z, 9007199254740992);
    var r := Nearest(z) as real;
    var q := r / TWO_52;
    assert q * TWO_52 == r;
    assert U * TWO_52 == 0.5;
  }

  lemma NearestBetween(low: int, z: real, high: int)
    requires 0 <= low && low as real <= z <= high as real
    ensures low <= Nearest(z) <= high
  {
  }

  /** Rounding stays on its side of 1 and within the relative error 2^-53. */
  lemma {:induction false} RoundBounds(x: real)
    requires x >= 0.0
    ensures x - U * x <= Round(x) <= x + U * x
    ensures x <= 1.0 ==> Round(x) <= 1.0
    ensures x >= 1.0 ==> Round(x) >= 1.0
    decreases 0.0 < x < 1.0, if x >= 1.0 then x.Floor else if x > 0.0 then (1.0 / x).Floor else 0
  {
    if 0.0 < x < 1.0 {
      HalfIsSmaller(x);
      RoundBounds(2.0 * x);
      if 2.0 * x >= 1.0 {
        OnePlaceBounds(2.0 * x);
      }
    } else if x >= 2.0 {
      RoundBounds(x / 2.0);
    } else if x >= 1.0 {
      OnePlaceBounds(x);
      OneIsExact();
    }
  }

  lemma {:induction false} RoundMonotone(x: real, y: real)
    requires 0.0 <= x <= y
    ensures Round(x) <= Round(y)
    decreases 0.0 < x < 1.0, if x >= 1.0 then y.Floor else if x > 0.0 then (1.0 / x).Floor else 0
  {
    hide Round, Nearest;
    RoundBounds(x);
    RoundBounds(y);
    RoundUnfolds(x);
    RoundUnfolds(y);
    if 0.0 < x && y < 1.0 {
      HalfIsSmaller(x);
      RoundMonotone(2.0 * x, 2.0 * y);
    } else if x >= 2.0 {
      RoundMonotone(x / 2.0, y / 2.0);
    } else if x >= 1.0 && y < 2.0 {
      NearestMonotone(x * TWO_52, y * TWO_52);
    } else if x >= 1.0 {
      OnePlaceBounds(x);
      RoundBounds(y / 2.0);
    }
  }

  lemma RoundUnfolds(x: real)
    requires x >= 0.0
    ensures 0.0 < x < 1.0 ==> Round(x) == Round(2.0 * x) / 2.0
    ensures x >= 2.0 ==> Round(x) == 2.0 * Round(x / 2.0)
    ensures 1.0 <= x < 2.0 ==> Round(x) == Nearest(x * TWO_52) as real / TWO_52
  {
  }

  lemma ZeroIsExact()
    ensures Round(0.0) == 0.0
  {
  }

  lemma OneIsExact()
    ensures Round(1.0) == 1.0
  {
    assert 1.0 * TWO_52 == TWO_52;
    assert TWO_52.Floor == 4503599627370496;
  }

  lemma HundredIsExact()
    ensures Round(100.0) == 100.0
  {
    assert Round(1.5625) == 1.5625 by {
      var z: real := 1.5625 * TWO_52;
      assert z == 7036874417766400.0;
      assert z.Floor == 7036874417766400;
    }
    assert Round(3.125) == 3.125 && Round(6.25) == 6.25 && Round(12.5) == 12.5;
    assert Round(25.0) == 25.0 && Round(50.0) == 50.0;
  }

  lemma ScaleUp(a: real, b: real, k: real)
    requires a <= b && k >= 0.0
    ensures a * k <= b * k
  {
  }

  lemma QuotientUpTo(a: real, b: real, bound: real)
    requires b > 0.0 && a <= bound * b
    ensures a / b <= bound
  {
    var q := a / b;
    assert q * b == a;
    if q > bound {
      assert (q - bound) * b > 0.0;
    }
  }

  lemma QuotientFrom(a: real, b: real, bound: real)
    requires b > 0.0 && bound * b <= a
    ensures bound <= a / b
  {
    var q := a / b;
    assert q * b == a;
    if q < bound {
      assert (bound - q) * b > 0.0;
    }
  }

  // ----- exact operations -----

  lemma RoundHalf(x: real)
    requires x >= 0.0
    ensures Round(x / 2.0) == Round(x) / 2.0
  {
    hide Round;
    RoundUnfolds(x);
    RoundUnfolds(x / 2.0);
    ZeroIsExact();
  }

  /** Rounding a double gives that double. */
  lemma {:induction false} RoundIdempotent(x: real)
    requires x >= 0.0
    ensures Round(x) >= 0.0 && Round(Round(x)) == Round(x)
    decreases 0.0 < x < 1.0, if x >= 1.0 then x.Floor else if x > 0.0 then (1.0 / x).Floor else 0
  {
    hide Round, Nearest;
    RoundBounds(x);
    RoundUnfolds(x);
    ZeroIsExact();
    if 0.0 < x < 1.0 {
      HalfIsSmaller(x);
      RoundIdempotent(2.0 * x);
      RoundHalf(Round(2.0 * x));
    } else if x >= 2.0 {
      RoundIdempotent(x / 2.0);
      RoundHalf(2.0 * Round(x / 2.0));
    } else if x >= 1.0 {
      PlaceIsExact(Nearest(x * TWO_52));
      NearestBetween(4503599627370496, x * TWO_52, 9007199254740992);
    }
  }

  lemma PlaceIsExact(n: int)
    ensures 4503599627370496 <= n <= 9007199254740992 ==> Round(n as real / TWO_52) == n as real / TWO_52
  {
    var q := n as real / TWO_52;
    assert q * TWO_52 == n as real;
    if n == 9007199254740992 {
      OneIsExact();
      assert q == 2.0;
    }
  }

  /** Scaling by 2^-30 is exact. */
  lemma ScalingIsExact(x: real)
    requires x >= 0.0
    ensures Round(x) >= 0.0
    ensures Round(Round(x) / (1024.0 * 1024.0 * 1024.0)) == Round(x) / (1024.0 * 1024.0 * 1024.0)
  {
    hide Round;
    RoundIdempotent(x);
    var r := Round(x);
    ScaleDown(r);
    ScaleDown(r / 1024.0);
    ScaleDown(r / 1024.0 / 1024.0);
    assert r / 1024.0 / 1024.0 / 1024.0 == r / (1024.0 * 1024.0 * 1024.0);
  }

  lemma ScaleDown(x: real)
    requires x >= 0.0
    ensures Round(x / 1024.0) == Round(x) / 1024.0
  {
    hide Round;
    RoundHalf(x);
    RoundHalf(x / 2.0);
    RoundHalf(x / 4.0);
    RoundHalf(x / 8.0);
    RoundHalf(x / 16.0);
    RoundHalf(x / 32.0);
    RoundHalf(x / 64.0);
    RoundHalf(x / 128.0);
    RoundHalf(x / 256.0);
    RoundHalf(x / 512.0);
  }

  // ----- percentages -----

  /** `part / whole * 100.0`, both operations rounded. */
  function Percent(part: real, whole: real): real
    requires part >= 0.0 && whole > 0.0
  {
    RoundBounds(part / whole);
    Round(Round(part / whole) * 100.0)
  }

  lemma PercentInRange(part: real, whole: real)
    requires 0.0 <= part <= whole && whole > 0.0
    ensures 0.0 <= Percent(part, whole) <= 100.0
  {
    hide Round;
    QuotientUpTo(part, whole, 1.0);
    QuotientFrom(part, whole, 0.0);
    RoundBounds(part / whole);
    HundredIsExact();
    RoundMonotone(Round(part / whole) * 100.0, 100.0);
    RoundBounds(Round(part / whole) * 100.0);
  }

  lemma PercentMonotone(part: real, more: real, whole: real)
    requires 0.0 <= part <= more && whole > 0.0
    ensures Percent(part, whole) <= Percent(more, whole)
  {
    hide Round;
    var (a, b) := (part / whole, more / whole);
    assert b * whole == more;
    QuotientUpTo(part, whole, b);
    QuotientFrom(part, whole, 0.0);
    RoundMonotone(a, b);
    RoundBounds(a);
    RoundMonotone(Round(a) * 100.0, Round(b) * 100.0);
  }
}
