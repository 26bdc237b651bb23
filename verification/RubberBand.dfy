/** The rubber band that softens a gesture past the ends of its range, over exact reals. */
module RubberBand {

  datatype RubberBand = RubberBand(stiffness: real, limit: real) {
    predicate Valid() {
      0.0 < stiffness && 0.0 < limit
    }

    function Band(x: real): real
      requires Valid() && 0.0 <= x
    {
      QuotientIs(this, x);
      (1.0 - 1.0 / (x * stiffness / limit + 1.0)) * limit
    }

    function Derivative(x: real): real
      requires Valid() && 0.0 <= x
    {
      var e := Stretch(x);
      stiffness * limit * limit / (e * e)
    }

    function Stretch(x: real): (e: real)
      requires Valid() && 0.0 <= x
      ensures e >= limit && e * e > 0.0
    {
      assert stiffness * x >= 0.0;
      var e := stiffness * x + limit;
      assert e * e > 0.0;
      e
    }

    function Clamp(min: real, max: real, x: real): real
      requires Valid() && min <= max
    {
      var clamped := Nearest(min, max, x);
      var sign := if x < clamped then -1.0 else 1.0;
      clamped + sign * Band(Abs(x - clamped))
    }

    function ClampDerivative(min: real, max: real, x: real): real
      requires Valid() && min <= max
    {
      if min <= x <= max then 1.0 else Derivative(Abs(x - Nearest(min, max, x)))
    }
  }

  function Nearest(min: real, max: real, x: real): real
    requires min <= max
  {
    if x < min then min else if x > max then max else x
  }

  function Abs(x: real): real {
    if x < 0.0 then -x else x
  }

  lemma QuotientIs(r: RubberBand, x: real)
    requires r.Valid() && 0.0 <= x
    ensures x * r.stiffness / r.limit + 1.0 > 0.0
    ensures (x * r.stiffness / r.limit + 1.0) * r.limit == r.Stretch(x)
  {
  }

  /** The band as a single fraction: `Band(x) = c d x / (c x + d)`. */
  lemma BandIs(r: RubberBand, x: real)
    requires r.Valid() && 0.0 <= x
    ensures r.Band(x) * r.Stretch(x) == r.stiffness * r.limit * x
  {
  }

  lemma PositiveFactor(x: real, m: real, product: real)
    requires m > 0.0 && product > 0.0 && x * m == product
    ensures x > 0.0
  {
  }

  /** The band is at least 0, and stays below its limit. */
  lemma BandBounds(r: RubberBand, x: real)
    requires r.Valid() && 0.0 <= x
    ensures 0.0 <= r.Band(x) < r.limit
    ensures r.Band(x) == 0.0 <==> x == 0.0
  {
  }

  /** `rise` is `k w / (p q)`. */
  predicate RiseIs(rise: real, p: real, q: real, k: real, w: real) {
    rise * (p * q) == k * w
  }

  /** `slope` is `k / p^2`. */
  predicate SlopeIs(slope: real, p: real, k: real) {
    slope * (p * p) == k
  }

  /** The rise of a straight line. */
  function Along(slope: real, w: real): real {
    slope * w
  }

  /** How far the band can be from a straight line over a distance `w`. */
  function Bend(c: real, d: real, w: real): real
    requires 0.0 < d
  {
    c * c / d * (w * w)
  }

  function Scale(c: real, d: real): real {
    c * d * d
  }

  /** The rise of the band over a distance, as a single fraction. */
  lemma BandStep(r: RubberBand, a: real, w: real)
    requires r.Valid() && 0.0 <= a && 0.0 <= w
    ensures RiseIs(r.Band(a + w) - r.Band(a), r.Stretch(a), r.Stretch(a + w), Scale(r.stiffness, r.limit), w)
  {
  }

  function Cube(x: real, y: real, z: real): real {
    x * y * z
  }

  predicate TimesIs(x: real, y: real, product: real) {
    x * y == product
  }

  /** The error of a straight line of slope `k / p^2`, times `p^2 q`. */
  lemma ErrorTimesCube(c: real, d: real, p: real, q: real, w: real, rise: real, slope: real)
    requires q - p == c * w
    requires SlopeIs(slope, p, Scale(c, d)) && RiseIs(rise, p, q, Scale(c, d), w)
    ensures TimesIs(Along(slope, w) - rise, Cube(p, p, q), c * c * d * d * (w * w))
  {
  }

  lemma BendTimesCube(c: real, d: real, w: real)
    requires 0.0 < c && 0.0 < d
    ensures TimesIs(Bend(c, d, w), Cube(d, d, d), c * c * d * d * (w * w)) && Bend(c, d, w) >= 0.0
  {
  }

  lemma CubeGrows(d: real, p: real, q: real)
    requires 0.0 < d && d <= p && d <= q
    ensures Cube(p, p, q) >= Cube(d, d, d) > 0.0
  {
  }

  lemma SlopeError(c: real, d: real, p: real, q: real, w: real, rise: real, slope: real)
    requires 0.0 < c && 0.0 < d && d <= p && d <= q && q - p == c * w
    requires SlopeIs(slope, p, Scale(c, d)) && RiseIs(rise, p, q, Scale(c, d), w)
    ensures 0.0 <= Along(slope, w) - rise <= Bend(c, d, w)
  {
    ErrorTimesCube(c, d, p, q, w, rise, slope);
    BendTimesCube(c, d, w);
    CubeGrows(d, p, q);
    Ratio(Along(slope, w) - rise, Bend(c, d, w), Cube(p, p, q), Cube(d, d, d), c * c * d * d * (w * w));
  }

  lemma Ratio(x: real, y: real, m: real, n: real, product: real)
    requires m >= n > 0.0 && y >= 0.0 && TimesIs(x, m, product) && TimesIs(y, n, product)
    ensures 0.0 <= x <= y
  {
  }

  /** Over a distance the band is at most as steep as at its start and at least as steep as at its
      end, and it differs from a straight line of either slope by at most a multiple of the square
      of the distance: `Derivative` is the derivative of `Band`. */
  lemma BandSlope(r: RubberBand, a: real, w: real)
    requires r.Valid() && 0.0 <= a && 0.0 <= w
    ensures var rise, bend := r.Band(a + w) - r.Band(a), Bend(r.stiffness, r.limit, w);
      && (0.0 < w ==> rise > 0.0)
      && 0.0 <= Along(r.Derivative(a), w) - rise <= bend
      && 0.0 <= rise - Along(r.Derivative(a + w), w) <= bend
  {
    BandStep(r, a, w);
    DerivativeIs(r, a);
    DerivativeIs(r, a + w);
    StretchStep(r, a, w);
    BothSlopes(r.stiffness, r.limit, r.Stretch(a), r.Stretch(a + w), w, r.Band(a + w) - r.Band(a), r.Derivative(a), r.Derivative(a + w));
  }

  lemma DerivativeIs(r: RubberBand, x: real)
    requires r.Valid() && 0.0 <= x
    ensures SlopeIs(r.Derivative(x), r.Stretch(x), Scale(r.stiffness, r.limit))
  {
  }

  lemma StretchStep(r: RubberBand, a: real, w: real)
    requires r.Valid() && 0.0 <= a && 0.0 <= w
    ensures r.Stretch(a + w) - r.Stretch(a) == r.stiffness * w
  {
  }

  lemma BothSlopes(c: real, d: real, p: real, q: real, w: real, rise: real, atP: real, atQ: real)
    requires 0.0 < c && 0.0 < d && d <= p && d <= q && 0.0 <= w && q - p == c * w
    requires RiseIs(rise, p, q, Scale(c, d), w) && SlopeIs(atP, p, Scale(c, d)) && SlopeIs(atQ, q, Scale(c, d))
    ensures 0.0 < w ==> 0.0 < rise
    ensures 0.0 <= Along(atP, w) - rise <= Bend(c, d, w)
    ensures 0.0 <= rise - Along(atQ, w) <= Bend(c, d, w)
  {
    SlopeError(c, d, p, q, w, rise, atP);
    SlopeErrorBack(c, d, q, p, w, rise, atQ);
    if 0.0 < w {
      var pq, kw := p * q, Scale(c, d) * w;
      assert pq > 0.0;
      assert c * d > 0.0;
      assert c * d * d > 0.0;
      assert kw > 0.0;
      PositiveFactor(rise, pq, kw);
    }
  }

  lemma SlopeErrorBack(c: real, d: real, p: real, q: real, w: real, rise: real, slope: real)
    requires 0.0 < c && 0.0 < d && d <= p && d <= q && p - q == c * w
    requires SlopeIs(slope, p, Scale(c, d)) && RiseIs(rise, q, p, Scale(c, d), w)
    ensures 0.0 <= rise - Along(slope, w) <= Bend(c, d, w)
  {
    var v, k := -w, Scale(c, d);
    assert c * v == -(c * w) && k * v == -(k * w) && slope * v == -(slope * w);
    assert v * v == w * w;
    assert -rise * (p * q) == -(rise * (q * p));
    SlopeError(c, d, p, q, v, -rise, slope);
  }

  // ---- The gesture range ----

  /** Inside the range the position is unchanged; outside it is banded, from the nearest end. */
  lemma ClampCases(r: RubberBand, min: real, max: real, x: real)
    requires r.Valid() && min <= max
    ensures min <= x <= max ==> r.Clamp(min, max, x) == x
    ensures x > max ==> r.Clamp(min, max, x) == max + r.Band(x - max) && r.ClampDerivative(min, max, x) == r.Derivative(x - max)
    ensures x < min ==> r.Clamp(min, max, x) == min - r.Band(min - x) && r.ClampDerivative(min, max, x) == r.Derivative(min - x)
  {
  }

  /** Clamping keeps positions in the range, keeps the others outside it but within the limit of
      its ends, and never maps two positions to one or out of order. */
  lemma ClampIsSoft(r: RubberBand, min: real, max: real, x: real, y: real)
    requires r.Valid() && min <= max
    ensures min <= x <= max ==> r.Clamp(min, max, x) == x
    ensures min - r.limit < r.Clamp(min, max, x) < max + r.limit
    ensures min <= r.Clamp(min, max, x) <= max <==> min <= x <= max
    ensures x < y ==> r.Clamp(min, max, x) < r.Clamp(min, max, y)
  {
    ClampCases(r, min, max, x);
    ClampCases(r, min, max, y);
    ClampSide(r, min, max, x);
    ClampSide(r, min, max, y);
    if max < x < y {
      BandSlope(r, x - max, y - x);
      assert x - max + (y - x) == y - max;
    } else if x < y < min {
      BandSlope(r, min - y, y - x);
      assert min - y + (y - x) == min - x;
    }
  }

  lemma ClampSide(r: RubberBand, min: real, max: real, x: real)
    requires r.Valid() && min <= max
    ensures x > max ==> max < r.Clamp(min, max, x) < max + r.limit
    ensures x < min ==> min - r.limit < r.Clamp(min, max, x) < min
  {
  }

  /** Between two positions past the same end, the slope is between the derivatives there, and the
      derivative predicts the movement up to the square of the distance. */
  lemma ClampSlope(r: RubberBand, min: real, max: real, x: real, y: real)
    requires r.Valid() && min <= max && x < y && (max < x || y < min)
    ensures var near, far := if max < x then x else y, if max < x then y else x;
            var atNear, atFar := r.ClampDerivative(min, max, near), r.ClampDerivative(min, max, far);
            var rise, w := r.Clamp(min, max, y) - r.Clamp(min, max, x), y - x;
      && Along(atFar, w) <= rise <= Along(atNear, w)
      && Along(atNear, w) - rise <= Bend(r.stiffness, r.limit, w)
      && rise - Along(atFar, w) <= Bend(r.stiffness, r.limit, w)
  {
    ClampCases(r, min, max, x);
    ClampCases(r, min, max, y);
    if max < x {
      BandSlope(r, x - max, y - x);
      assert x - max + (y - x) == y - max;
    } else {
      BandSlope(r, min - y, y - x);
      assert min - y + (y - x) == min - x;
    }
  }

  /** The position that the band moves to `z`. */
  function Unband(r: RubberBand, z: real): (x: real)
    requires r.Valid() && 0.0 <= z < r.limit
    ensures 0.0 <= x
  {
    var m := r.stiffness * (r.limit - z);
    assert m > 0.0;
    var x := z * r.limit / m;
    assert x >= 0.0 by {
      var n := z * r.limit;
      assert n >= 0.0;
      QuotientSign(n, m);
    }
    x
  }

  lemma QuotientSign(n: real, m: real)
    requires n >= 0.0 && m > 0.0
    ensures n / m >= 0.0
  {
  }

  lemma UnbandInverts(r: RubberBand, z: real)
    requires r.Valid() && 0.0 <= z < r.limit
    ensures r.Band(Unband(r, z)) == z
  {
  }

  /** Every position within the limit of the range is reached, so with `ClampIsSoft` clamping is a
      bijection onto the open interval. */
  lemma ClampReaches(r: RubberBand, min: real, max: real, z: real)
    requires r.Valid() && min <= max
    ensures min - r.limit < z < max + r.limit <==> exists x :: r.Clamp(min, max, x) == z
  {
    if min - r.limit < z < max + r.limit {
      var x := if z > max then max + Unband(r, z - max) else if z < min then min - Unband(r, min - z) else z;
      if z > max {
        UnbandInverts(r, z - max);
        BandBounds(r, x - max);
      } else if z < min {
        UnbandInverts(r, min - z);
        BandBounds(r, min - x);
      }
      ClampCases(r, min, max, x);
      assert r.Clamp(min, max, x) == z;
    }
    forall x | r.Clamp(min, max, x) == z
      ensures min - r.limit < z < max + r.limit
    {
      ClampIsSoft(r, min, max, x, x);
    }
  }
}
