/** The cubic Bézier easing curve, over exact reals. */
module Bezier {

  /** The number of halvings, and the width of the final interval. */
  const STEPS: nat := 31
  const EPSILON: real := 1.0 / 4503599627370496.0

  function Bernstein(o: real, t: real, a: real, b: real): real {
    3.0 * o * o * t * a + 3.0 * o * t * t * b + t * t * t
  }

  /** The Bernstein form of a cubic from 0 to 1 with inner control values `a` and `b`. */
  function Cubic(a: real, b: real, t: real): real {
    Bernstein(1.0 - t, t, a, b)
  }

  function Pow2(n: nat): (r: real)
    ensures r >= 1.0
  {
    if n == 0 then 1.0 else 2.0 * Pow2(n - 1)
  }

  datatype CubicBezier = CubicBezier(x1: real, y1: real, x2: real, y2: real) {
    function XForT(t: real): real {
      Cubic(x1, x2, t)
    }

    function YForT(t: real): real {
      Cubic(y1, y2, t)
    }

    /** `n` more halvings of the interval from `minT` to `maxT`. */
    function Bisect(x: real, minT: real, maxT: real, n: nat): real
      decreases n
    {
      var guess := (minT + maxT) / 2.0;
      if n == 0 then guess
      else if x < XForT(guess) then Bisect(x, minT, guess, n - 1)
      else Bisect(x, guess, maxT, n - 1)
    }

    function TForX(x: real): real {
      Bisect(x, 0.0, 1.0, STEPS)
    }

    function Y(x: real): real {
      if x <= EPSILON then 0.0
      else if 1.0 - EPSILON <= x then 1.0
      else YForT(TForX(x))
    }

    /** The loop of `t_for_x`. The curve passes `x` between the two ends of the interval. */
    method TForXLoop(x: real) returns (t: real)
      ensures t == TForX(x) && 0.0 < t < 1.0
      ensures 0.0 <= x < 1.0 ==> exists minT, maxT ::
                && 0.0 <= minT < t < maxT <= 1.0 && XForT(minT) <= x < XForT(maxT)
                && t - minT == maxT - t == 1.0 / Pow2(STEPS + 1)
    {
      var minT, maxT := 0.0, 1.0;
      var i := 0;
      while i <= 30
        invariant 0 <= i <= 31
        invariant 0.0 <= minT < maxT <= 1.0 && maxT - minT == 1.0 / Pow2(i)
        invariant Bisect(x, minT, maxT, STEPS - i) == TForX(x)
        invariant 0.0 <= x < 1.0 ==> XForT(minT) <= x < XForT(maxT)
      {
        var guess := (minT + maxT) / 2.0;
        HalfOfPow2(i);
        if x < XForT(guess) {
          maxT := guess;
        } else {
          minT := guess;
        }
        i := i + 1;
      }
      HalfOfPow2(31);
      t := (minT + maxT) / 2.0;
    }
  }

  lemma HalfOfPow2(n: nat)
    ensures 1.0 / Pow2(n) / 2.0 == 1.0 / Pow2(n + 1)
  {
  }

  /** A rise over the distance `d` is between 0 and 3 times the distance when its slope `r` is between
      0 and 3. */
  lemma Between(rise: real, d: real, r: real)
    requires 0.0 <= d && 0.0 <= r <= 3.0 && TimesIs(d, r, rise)
    ensures 0.0 <= rise <= 3.0 * d
  {
    assert d * (3.0 - r) >= 0.0;
  }

  lemma Product(x: real, y: real) returns (xy: real)
    requires 0.0 <= x <= 1.0 && 0.0 <= y <= 1.0
    ensures xy == x * y && 0.0 <= xy <= x && xy <= y
  {
    xy := x * y;
    NonNegative(x, y);
    NonNegative(x, 1.0 - y);
    NonNegative(y, 1.0 - x);
    assert x * (1.0 - y) == x - xy && y * (1.0 - x) == y - xy;
  }

  /** The slope of the cubic with control values 0 or 1 between two parameters. */
  function Slope(a: bool, b: bool, s: real, t: real): real {
    var p, q := s + t, s * s + s * t + t * t;
    if a then if b then 3.0 - 3.0 * p + q else 3.0 - 6.0 * p + 4.0 * q
    else if b then 3.0 * p - 2.0 * q
    else q
  }

  function Corner(a: bool, b: bool, t: real): real {
    Cubic(if a then 1.0 else 0.0, if b then 1.0 else 0.0, t)
  }

  lemma SlopeBounds(a: bool, b: bool, s: real, t: real)
    requires 0.0 <= s <= t <= 1.0
    ensures 0.0 <= Slope(a, b, s, t) <= 3.0
  {
    SquareOfSum(s, t);
    var ss := Product(s, s);
    var st := Product(s, t);
    var tt := Product(t, t);
    LinearFactorBounds(s, t, ss, st, tt, (s + t) * (s + t));
  }

  lemma SquareOfSum(s: real, t: real)
    ensures var p := s + t;
      && p * p == s * s + 2.0 * (s * t) + t * t && p * p >= 4.0 * (s * t)
      && p * p - 2.0 * p + 1.0 >= 0.0 && p * p - 4.0 * p + 4.0 >= 0.0
  {
    var p := s + t;
    Difference(t, s);
    Difference(p, 1.0);
    Difference(p, 2.0);
  }

  lemma Difference(x: real, y: real)
    ensures x * x - 2.0 * (y * x) + y * y >= 0.0
  {
  }

  /** The linear part of the above, with the products as variables. */
  lemma LinearFactorBounds(s: real, t: real, ss: real, st: real, tt: real, pp: real)
    requires 0.0 <= s <= t <= 1.0 && 0.0 <= ss <= s && 0.0 <= st <= s && 0.0 <= tt <= t
    requires pp == ss + 2.0 * st + tt && pp >= 4.0 * st
    requires pp - 2.0 * (s + t) + 1.0 >= 0.0 && pp - 4.0 * (s + t) + 4.0 >= 0.0
    ensures var p, q := s + t, ss + st + tt;
      && 0.0 <= q <= 3.0
      && 0.0 <= 3.0 * p - 2.0 * q <= 3.0
      && 0.0 <= 3.0 - 6.0 * p + 4.0 * q <= 3.0
      && 0.0 <= 3.0 - 3.0 * p + q <= 3.0
  {
  }

  lemma CornerStep(a: bool, b: bool, s: real, t: real)
    requires 0.0 <= s <= t <= 1.0
    ensures 0.0 <= Corner(a, b, t) - Corner(a, b, s) <= 3.0 * (t - s)
  {
    SlopeBounds(a, b, s, t);
    CornerSlope(a, b, s, t);
    Between(Corner(a, b, t) - Corner(a, b, s), t - s, Slope(a, b, s, t));
  }

  lemma CornerSlope(a: bool, b: bool, s: real, t: real)
    ensures TimesIs(t - s, Slope(a, b, s, t), Corner(a, b, t) - Corner(a, b, s))
  {
  }

  predicate TimesIs(x: real, y: real, product: real) {
    x * y == product
  }

  lemma NonNegative(x: real, y: real)
    requires 0.0 <= x && 0.0 <= y
    ensures 0.0 <= x * y
  {
  }

  function Blend(v: real, w: real, a: real, b: real): real {
    v * a + w * b
  }

  function Mix(w: real, a: real, b: real): real {
    Blend(1.0 - w, w, a, b)
  }

  lemma MixIsBetween(w: real, a: real, b: real, low: real, high: real)
    requires 0.0 <= w <= 1.0 && low <= a <= high && low <= b <= high
    ensures low <= Mix(w, a, b) <= high
  {
    NonNegative(1.0 - w, a - low);
    NonNegative(w, b - low);
    NonNegative(1.0 - w, high - a);
    NonNegative(w, high - b);
    assert (1.0 - w) * (a - low) + w * (b - low) == Mix(w, a, b) - low;
    assert (1.0 - w) * (high - a) + w * (high - b) == high - Mix(w, a, b);
  }

  lemma MixSubtracts(w: real, a: real, b: real, c: real, d: real)
    ensures Mix(w, a, b) - Mix(w, c, d) == Mix(w, a - c, b - d)
  {
  }

  /** A cubic is affine in each control value, so it is a mean of the extreme ones. */
  lemma CubicIsMeanOfCorners(a: real, b: real, t: real)
    ensures Cubic(a, b, t) == Mix(a, Mix(b, Cubic(0.0, 0.0, t), Cubic(0.0, 1.0, t)), Mix(b, Cubic(1.0, 0.0, t), Cubic(1.0, 1.0, t)))
  {
    var o := 1.0 - t;
    AffineInFirst(o, t, a, b);
    AffineInSecond(o, t, 0.0, b);
    AffineInSecond(o, t, 1.0, b);
  }

  lemma AffineInFirst(o: real, t: real, a: real, b: real)
    ensures Bernstein(o, t, a, b) == Mix(a, Bernstein(o, t, 0.0, b), Bernstein(o, t, 1.0, b))
  {
  }

  lemma AffineInSecond(o: real, t: real, a: real, b: real)
    ensures Bernstein(o, t, a, b) == Mix(b, Bernstein(o, t, a, 0.0), Bernstein(o, t, a, 1.0))
  {
  }

  /** With control values in [0, 1] the curve never goes back, and is at most three times as fast
      as its parameter. */
  lemma CubicIsMonotoneAndLipschitz(a: real, b: real, s: real, t: real)
    requires 0.0 <= a <= 1.0 && 0.0 <= b <= 1.0 && 0.0 <= s <= t <= 1.0
    ensures 0.0 <= Cubic(a, b, t) - Cubic(a, b, s) <= 3.0 * (t - s)
  {
    CornerStep(false, false, s, t);
    CornerStep(false, true, s, t);
    CornerStep(true, false, s, t);
    CornerStep(true, true, s, t);
    CubicIsMeanOfCorners(a, b, s);
    CubicIsMeanOfCorners(a, b, t);
    MixesStep(a, b, Cubic(0.0, 0.0, t), Cubic(0.0, 1.0, t), Cubic(1.0, 0.0, t), Cubic(1.0, 1.0, t),
              Cubic(0.0, 0.0, s), Cubic(0.0, 1.0, s), Cubic(1.0, 0.0, s), Cubic(1.0, 1.0, s), 3.0 * (t - s));
  }

  lemma MixesStep(a: real, b: real, t00: real, t01: real, t10: real, t11: real, s00: real, s01: real, s10: real, s11: real, bound: real)
    requires 0.0 <= a <= 1.0 && 0.0 <= b <= 1.0
    requires 0.0 <= t00 - s00 <= bound && 0.0 <= t01 - s01 <= bound && 0.0 <= t10 - s10 <= bound && 0.0 <= t11 - s11 <= bound
    ensures 0.0 <= Mix(a, Mix(b, t00, t01), Mix(b, t10, t11)) - Mix(a, Mix(b, s00, s01), Mix(b, s10, s11)) <= bound
  {
    MixIsBetween(b, t00 - s00, t01 - s01, 0.0, bound);
    MixSubtracts(b, t00, t01, s00, s01);
    MixIsBetween(b, t10 - s10, t11 - s11, 0.0, bound);
    MixSubtracts(b, t10, t11, s10, s11);
    var t0, t1, s0, s1 := Mix(b, t00, t01), Mix(b, t10, t11), Mix(b, s00, s01), Mix(b, s10, s11);
    MixIsBetween(a, t0 - s0, t1 - s1, 0.0, bound);
    MixSubtracts(a, t0, t1, s0, s1);
  }

  /** De Casteljau's construction of the same curve. */
  lemma CubicIsRepeatedMix(a: real, b: real, t: real)
    ensures Cubic(a, b, t) == Mix(t, Mix(t, Mix(t, 0.0, a), Mix(t, a, b)), Mix(t, Mix(t, a, b), Mix(t, b, 1.0)))
  {
    var o := 1.0 - t;
    TwoBlends(o, t, 0.0, a, b);
    TwoBlends(o, t, a, b, 1.0);
    LastBlend(o, t, a, b);
  }

  function Quadratic(o: real, t: real, x: real, y: real, z: real): real {
    (o * o) * x + 2.0 * (o * t) * y + (t * t) * z
  }

  lemma TwoBlends(o: real, t: real, x: real, y: real, z: real)
    ensures Blend(o, t, Blend(o, t, x, y), Blend(o, t, y, z)) == Quadratic(o, t, x, y, z)
  {
  }

  lemma LastBlend(o: real, t: real, a: real, b: real)
    ensures Blend(o, t, Quadratic(o, t, 0.0, a, b), Quadratic(o, t, a, b, 1.0)) == Bernstein(o, t, a, b)
  {
  }

  /** The curve stays in the hull of its end points and control values. */
  lemma CubicStaysInHull(a: real, b: real, t: real, low: real, high: real)
    requires 0.0 <= t <= 1.0 && low <= 0.0 && 1.0 <= high && low <= a <= high && low <= b <= high
    ensures low <= Cubic(a, b, t) <= high
  {
    CubicIsRepeatedMix(a, b, t);
    var m0, m1, m2 := Mix(t, 0.0, a), Mix(t, a, b), Mix(t, b, 1.0);
    MixIsBetween(t, 0.0, a, low, high);
    MixIsBetween(t, a, b, low, high);
    MixIsBetween(t, b, 1.0, low, high);
    MixIsBetween(t, m0, m1, low, high);
    MixIsBetween(t, m1, m2, low, high);
    MixIsBetween(t, Mix(t, m0, m1), Mix(t, m1, m2), low, high);
  }

  lemma {:induction false} BisectBounds(c: CubicBezier, x: real, minT: real, maxT: real, n: nat)
    requires minT < maxT
    ensures minT < c.Bisect(x, minT, maxT, n) < maxT
    decreases n
  {
    if n > 0 {
      var guess := (minT + maxT) / 2.0;
      if x < c.XForT(guess) {
        BisectBounds(c, x, minT, guess, n - 1);
      } else {
        BisectBounds(c, x, guess, maxT, n - 1);
      }
    }
  }

  /** Half the width of an interval of width `w` after `n` halvings. */
  function HalfWidth(w: real, n: nat): real
    decreases n
  {
    if n == 0 then w / 2.0 else HalfWidth(w / 2.0, n - 1)
  }

  lemma {:induction false} HalfWidthIs(w: real, n: nat)
    ensures HalfWidth(w, n) * Pow2(n + 1) == w
    decreases n
  {
    if n == 0 {
      assert Pow2(1) == 2.0 * Pow2(0) == 2.0;
    } else {
      HalfWidthIs(w / 2.0, n - 1);
      var h, p := HalfWidth(w / 2.0, n - 1), Pow2(n);
      assert h * (2.0 * p) == 2.0 * (h * p);
    }
  }

  /** The parameter found for `x` is the middle of an interval over which the curve crosses `x`. */
  lemma {:induction false} BisectCrosses(c: CubicBezier, x: real, minT: real, maxT: real, n: nat)
    requires 0.0 <= minT < maxT <= 1.0 && c.XForT(minT) <= x < c.XForT(maxT)
    requires 0.0 <= c.x1 <= 1.0 && 0.0 <= c.x2 <= 1.0
    ensures var h := HalfWidth(maxT - minT, n); -3.0 * h <= c.XForT(c.Bisect(x, minT, maxT, n)) - x <= 3.0 * h
    decreases n
  {
    var guess := (minT + maxT) / 2.0;
    assert guess - minT == maxT - guess == (maxT - minT) / 2.0;
    if n == 0 {
      CubicIsMonotoneAndLipschitz(c.x1, c.x2, minT, guess);
      CubicIsMonotoneAndLipschitz(c.x1, c.x2, guess, maxT);
    } else if x < c.XForT(guess) {
      BisectCrosses(c, x, minT, guess, n - 1);
    } else {
      BisectCrosses(c, x, guess, maxT, n - 1);
    }
  }

  /** For control abscissae in [0, 1], the curve at the parameter found for `x` is within 3/2^32 of
      `x`. */
  lemma TForXIsAccurate(c: CubicBezier, x: real)
    requires 0.0 <= x < 1.0 && 0.0 <= c.x1 <= 1.0 && 0.0 <= c.x2 <= 1.0
    ensures -3.0 / 4294967296.0 <= c.XForT(c.TForX(x)) - x <= 3.0 / 4294967296.0
  {
    BisectCrosses(c, x, 0.0, 1.0, STEPS);
    HalfWidthIs(1.0, STEPS);
    Pow2Of32();
  }

  /** Away from the ends, the eased value is the ordinate of a point of the curve whose abscissa is
      `x`, up to the same error. */
  lemma EasingFollowsCurve(c: CubicBezier, x: real)
    requires EPSILON < x < 1.0 - EPSILON && 0.0 <= c.x1 <= 1.0 && 0.0 <= c.x2 <= 1.0
    ensures exists t | 0.0 < t < 1.0 ::
              c.Y(x) == c.YForT(t) && -3.0 / 4294967296.0 <= c.XForT(t) - x <= 3.0 / 4294967296.0
  {
    TForXIsAccurate(c, x);
    BisectBounds(c, x, 0.0, 1.0, STEPS);
    assert c.Y(x) == c.YForT(c.TForX(x));
  }

  lemma Pow2Of32()
    ensures Pow2(32) == 4294967296.0
  {
    assert Pow2(8) == 256.0;
    assert Pow2(16) == 65536.0;
    assert Pow2(24) == 16777216.0;
  }

  /** The parameter found never decreases with `x`, whatever the control points. */
  lemma {:induction false} BisectIsMonotone(c: CubicBezier, x: real, x': real, minT: real, maxT: real, n: nat)
    requires x <= x' && minT < maxT
    ensures c.Bisect(x, minT, maxT, n) <= c.Bisect(x', minT, maxT, n)
    decreases n
  {
    if n > 0 {
      var guess := (minT + maxT) / 2.0;
      if x' < c.XForT(guess) {
        BisectIsMonotone(c, x, x', minT, guess, n - 1);
      } else if c.XForT(guess) <= x {
        BisectIsMonotone(c, x, x', guess, maxT, n - 1);
      } else {
        BisectBounds(c, x, minT, guess, n - 1);
        BisectBounds(c, x', guess, maxT, n - 1);
      }
    }
  }

  /** The eased value starts at 0, ends at 1, stays in the hull of 0, 1 and the control ordinates,
      and for control ordinates in [0, 1] never goes back as time advances. */
  lemma EasingIsSound(c: CubicBezier, x: real, x': real, low: real, high: real)
    requires low <= 0.0 && 1.0 <= high && low <= c.y1 <= high && low <= c.y2 <= high
    ensures low <= c.Y(x) <= high
    ensures c.Y(0.0) == 0.0 && c.Y(1.0) == 1.0
    ensures x <= x' && 0.0 <= c.y1 <= 1.0 && 0.0 <= c.y2 <= 1.0 ==> c.Y(x) <= c.Y(x')
  {
    BisectBounds(c, x, 0.0, 1.0, STEPS);
    BisectBounds(c, x', 0.0, 1.0, STEPS);
    CubicStaysInHull(c.y1, c.y2, c.TForX(x), low, high);
    if x <= x' && 0.0 <= c.y1 <= 1.0 && 0.0 <= c.y2 <= 1.0 {
      CubicStaysInHull(c.y1, c.y2, c.TForX(x), 0.0, 1.0);
      CubicStaysInHull(c.y1, c.y2, c.TForX(x'), 0.0, 1.0);
      BisectIsMonotone(c, x, x', 0.0, 1.0, STEPS);
      CubicIsMonotoneAndLipschitz(c.y1, c.y2, c.TForX(x), c.TForX(x'));
    }
  }
}
