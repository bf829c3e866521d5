/** The rounding and folding primitives that the calculator takes from JavaScript's
    `Math` and `Array` objects, stated over mathematical reals. */
module Numeric {

  /** `Math.floor`: the greatest integer that is not above `x`. */
  function Floor(x: real): (f: int)
    ensures f as real <= x < f as real + 1.0
  {
    x.Floor
  }

  /** `Math.ceil`: the least integer that is not below `x`. */
  function Ceil(x: real): (c: int)
    ensures x <= c as real < x + 1.0
  {
    -((-x).Floor)
  }

  /** `Math.max` of two numbers. */
  function Max(a: real, b: real): (m: real)
    ensures a <= m && b <= m
    ensures m == a || m == b
  {
    if a >= b then a else b
  }

  /** `reduce((a, b) => a + b, 0)`: the sum of `s`, added from left to right. */
  function Sum(s: seq<real>): (total: real)
    ensures (forall k :: 0 <= k < |s| ==> 0.0 <= s[k]) ==> 0.0 <= total
  {
    if s == [] then 0.0 else Sum(s[..|s| - 1]) + s[|s| - 1]
  }

  /** The identity; `Square` uses it to keep the solver's nonlinear reasoning on track. */
  function Copy(x: real): real {
    x
  }

  /** `Math.pow(x, 2)`. */
  function Square(x: real): (s: real)
    ensures 0.0 <= s
    ensures x != 0.0 ==> 0.0 < s
  {
    x * Copy(x)
  }

  /** Squaring keeps the order of non-negative numbers. */
  lemma SquareMonotone(a: real, b: real)
    requires 0.0 <= a <= b
    ensures Square(a) <= Square(b)
  {
    ProductsOrdered(a, b, Copy(a), Copy(b));
  }

  /** Helper for `SquareMonotone`, stated over plain reals. */
  lemma ProductsOrdered(a: real, b: real, ca: real, cb: real)
    requires 0.0 <= a <= b && ca == a && cb == b
    ensures a * ca <= b * cb
  {
    MulMonotone(a, b, ca);
    MulMonotone(ca, cb, b);
  }

  /** Multiplying by a non-negative factor keeps the order of two numbers, and a
      positive factor keeps a strict order. */
  lemma MulMonotone(x: real, y: real, f: real)
    requires x <= y && 0.0 <= f
    ensures x * f <= y * f
    ensures x < y && 0.0 < f ==> x * f < y * f
  {
  }

  /** Dividing by a positive number keeps the order of two numbers. */
  lemma QuotientMonotone(x: real, y: real, d: real)
    requires x <= y && 0.0 < d
    ensures x / d <= y / d
  {
    MulMonotone(x, y, 1.0 / d);
  }

  /** Two quotients with positive divisors compare as their cross products do. */
  lemma CrossQuotient(x: real, y: real, dx: real, dy: real)
    requires 0.0 < dx && 0.0 < dy && y * dx <= x * dy
    ensures y / dy <= x / dx
  {
    var qx := x / dx;
    var qy := y / dy;
    QuotientSign(x, dx);
    QuotientSign(y, dy);
    MulPositive(dx, dy);
    assert qy * (dx * dy) == y * dx;
    assert qx * (dx * dy) == x * dy;
    CancelPositive(qy, qx, dx * dy);
  }

  /** The relative change from `base` to `value`, in percent:
      `((value - base) / base) * 100`. */
  function RelativeChange(base: real, value: real): (u: real)
    requires 0.0 < base
    ensures u * base == (value - base) * 100.0
    ensures u > 0.0 <==> value > base
    ensures u < 0.0 <==> value < base
  {
    QuotientSign(value - base, base);
    PercentOfProduct((value - base) / base, base, value - base);
    ((value - base) / base) * 100.0
  }

  /** Moving the value down and up by the same non-negative margin gives relative
      changes on either side of the unmoved one, at equal distances. */
  lemma RelativeChangeInterval(base: real, value: real, margin: real)
    requires 0.0 < base && 0.0 <= margin
    ensures RelativeChange(base, value - margin) <= RelativeChange(base, value) <= RelativeChange(base, value + margin)
    ensures RelativeChange(base, value + margin) - RelativeChange(base, value)
            == RelativeChange(base, value) - RelativeChange(base, value - margin)
    ensures (RelativeChange(base, value + margin) - RelativeChange(base, value)) * base == margin * 100.0
  {
    var d := value - base;
    assert (d - margin) / base == d / base - margin / base;
    assert (d + margin) / base == d / base + margin / base;
    QuotientSign(margin, base);
    HalfWidth(RelativeChange(base, value + margin), RelativeChange(base, value), base, value, margin);
  }

  /** Helper for `RelativeChangeInterval`: the distance between two relative
      changes, scaled back by the base, is the distance between the values. */
  lemma HalfWidth(hi: real, u: real, base: real, value: real, margin: real)
    requires hi * base == (value + margin - base) * 100.0
    requires u * base == (value - base) * 100.0
    ensures (hi - u) * base == margin * 100.0
  {
    assert (hi - u) * base == hi * base - u * base;
  }

  /** Scaling a factor by 100 scales the product by 100. */
  lemma PercentOfProduct(q: real, p: real, d: real)
    requires q * p == d
    ensures (q * 100.0) * p == d * 100.0
  {
  }

  /** A positive factor can be cancelled from both sides of `<=`. */
  lemma CancelPositive(x: real, y: real, f: real)
    requires x * f <= y * f && 0.0 < f
    ensures x <= y
  {
  }

  /** A product of two positive numbers is positive. */
  lemma MulPositive(x: real, y: real)
    requires 0.0 < x && 0.0 < y
    ensures 0.0 < x * y
  {
  }

  /** A product of two non-zero numbers is non-zero. */
  lemma MulNonzero(x: real, y: real)
    ensures x != 0.0 && y != 0.0 ==> x * y != 0.0
  {
  }

  /** The ceiling of `num / den`, for a positive `den`, is the least `n` with
      `n * den >= num`. */
  lemma CeilOfQuotient(num: real, den: real)
    requires 0.0 < den
    ensures Ceil(num / den) as real * den >= num
    ensures (Ceil(num / den) as real - 1.0) * den < num
    ensures 0.0 < num ==> 1 <= Ceil(num / den)
  {
    var q := num / den;
    var c := Ceil(q) as real;
    assert q * den == num;
    ScaleBounds(c - 1.0, q, c, den, num);
  }

  /** `lo < q <= hi` scaled by a positive `den`, where `q * den == num`. */
  lemma ScaleBounds(lo: real, q: real, hi: real, den: real, num: real)
    requires lo < q <= hi && 0.0 < den && q * den == num
    ensures lo * den < num <= hi * den
    ensures 0.0 < num ==> 0.0 < hi
  {
    MulMonotone(lo, q, den);
    assert lo * den < num;
    MulMonotone(q, hi, den);
    assert num <= hi * den;
    if 0.0 < num && hi <= 0.0 {
      MulMonotone(hi, 0.0, den);
    }
  }

  /** Rounding up never reverses the order of two numbers. */
  lemma CeilMonotone(x: real, y: real)
    requires x <= y
    ensures Ceil(x) <= Ceil(y)
  {
  }

  /** Rounding down never reverses the order of two numbers. */
  lemma FloorMonotone(x: real, y: real)
    requires x <= y
    ensures Floor(x) <= Floor(y)
  {
  }

  /** A mean of `x` and `y` with positive weights lies between them, whichever of
      the two is smaller. */
  lemma WeightedMeanBetween(x: real, y: real, a: real, b: real, m: real)
    requires 0.0 < a && 0.0 < b
    requires m * (a + b) == x * a + y * b
    ensures x <= y ==> x <= m <= y
    ensures y <= x ==> y <= m <= x
  {
    if x <= y {
      WeightedMeanAtLeast(x, y, a, b, m);
      WeightedMeanAtMost(x, y, a, b, m);
    } else {
      assert m * (b + a) == y * b + x * a;
      WeightedMeanAtLeast(y, x, b, a, m);
      WeightedMeanAtMost(y, x, b, a, m);
    }
  }

  lemma WeightedMeanAtLeast(x: real, y: real, a: real, b: real, m: real)
    requires x <= y && 0.0 < a && 0.0 < b
    requires m * (a + b) == x * a + y * b
    ensures x <= m
  {
    var s := a + b;
    MulMonotone(x, y, b);
    assert x * s == x * a + x * b;
    assert m * s == x * a + y * b;
    CancelPositive(x, m, s);
  }

  lemma WeightedMeanAtMost(x: real, y: real, a: real, b: real, m: real)
    requires x <= y && 0.0 < a && 0.0 < b
    requires m * (a + b) == x * a + y * b
    ensures m <= y
  {
    var s := a + b;
    MulMonotone(x, y, a);
    assert y * s == y * a + y * b;
    assert m * s == x * a + y * b;
    CancelPositive(m, y, s);
  }

  /** Dividing by a positive number keeps the sign. */
  lemma QuotientSign(x: real, d: real)
    requires 0.0 < d
    ensures (x / d) * d == x
    ensures x / d > 0.0 <==> x > 0.0
    ensures x / d < 0.0 <==> x < 0.0
  {
    var q := x / d;
    assert q * d == x;
    if q > 0.0 { MulPositive(q, d); }
    if q < 0.0 { MulPositive(-q, d); }
    if x > 0.0 && q <= 0.0 { MulMonotone(q, 0.0, d); }
    if x < 0.0 && q >= 0.0 { MulMonotone(0.0, q, d); }
  }

  /** `p * (1 - p)`, the Bernoulli variance of a rate `p`. */
  function Spread(p: real): (v: real)
    ensures 0.0 < p < 1.0 ==> 0.0 < v
    ensures 0.0 <= p <= 1.0 ==> 0.0 <= v
  {
    p * (1.0 - p)
  }

  /** The arithmetic mean, `s.reduce((a, b) => a + b, 0) / s.length`. */
  function Mean(s: seq<real>): (m: real)
    requires 0 < |s|
    ensures (forall k :: 0 <= k < |s| ==> 0.0 <= s[k]) ==> 0.0 <= m
  {
    QuotientSign(Sum(s), |s| as real);
    Sum(s) / (|s| as real)
  }

  /** Means over the same number of terms subtract term by term. */
  lemma MeanDifference(a: seq<real>, b: seq<real>, d: seq<real>)
    requires 0 < |a| == |b| == |d| && Sum(a) - Sum(b) == Sum(d)
    ensures Mean(a) - Mean(b) == Mean(d)
  {
    QuotientDifference(Sum(a), Sum(b), Sum(d), |a| as real);
  }

  lemma QuotientDifference(x: real, y: real, z: real, n: real)
    requires 0.0 < n && x - y == z
    ensures x / n - y / n == z / n
  {
  }

  /** `part` out of `whole`, as a percentage: `(part / whole) * 100`. */
  function Percent(part: int, whole: int): (p: real)
    requires 0 <= part <= whole && 0 < whole
    ensures 0.0 <= p <= 100.0
    ensures p == 100.0 <==> part == whole
    ensures p == 0.0 <==> part == 0
  {
    FractionBounds(part as real, whole as real);
    (part as real / whole as real) * 100.0
  }

  /** A fraction `x / w` with `0 <= x <= w` lies in `[0, 1]`, and hits either end
      exactly when `x` does. */
  lemma FractionBounds(x: real, w: real)
    requires 0.0 <= x <= w && 0.0 < w
    ensures 0.0 <= x / w <= 1.0
    ensures x / w == 1.0 <==> x == w
    ensures x / w == 0.0 <==> x == 0.0
  {
    QuotientSign(x, w);
    UnitFactor(x / w, w, x);
  }

  /** The factor `q` with `q * w == x` for `0 <= x <= w` lies in `[0, 1]`. */
  lemma UnitFactor(q: real, w: real, x: real)
    requires 0.0 <= x <= w && 0.0 < w && q * w == x
    ensures 0.0 <= q <= 1.0
    ensures q == 1.0 <==> x == w
    ensures q == 0.0 <==> x == 0.0
  {
    CancelPositive(0.0, q, w);
    CancelPositive(q, 1.0, w);
    if x == w {
      CancelPositive(1.0, q, w);
    }
    if x == 0.0 {
      CancelPositive(q, 0.0, w);
    }
  }
}
