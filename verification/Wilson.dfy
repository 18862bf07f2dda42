/** The Wilson score interval of the calibration and drift reports, in exact
    real arithmetic and before the report rounds it to four decimals.

    `math.sqrt` is any non-negative `root` whose square is its argument. */
module Wilson {
  import opened Options
  import opened Reals

  function Rate(positive: nat, total: nat): real
    requires total > 0
  {
    positive as real / total as real
  }

  function Denominator(total: nat, z: real): real
    requires total > 0
  {
    1.0 + z * z / total as real
  }

  function Radicand(p: real, n: real, z: real): real
    requires n > 0.0
  {
    (p * (1.0 - p) + z * z / (4.0 * n)) / n
  }

  predicate IsRoot(root: real, positive: nat, total: nat, z: real)
    requires total > 0
  {
    root >= 0.0 && root * root == Radicand(Rate(positive, total), total as real, z)
  }

  /** The two ends before `max(0.0, ...)` and `min(1.0, ...)`. */
  function Ends(positive: nat, total: nat, z: real, root: real): (real, real)
    requires total > 0
  {
    var n := total as real;
    var p := Rate(positive, total);
    var denominator := 1.0 + z * z / n;
    DenominatorPositive(n, z);
    var centre := (p + z * z / (2.0 * n)) / denominator;
    var margin := z * root / denominator;
    (centre - margin, centre + margin)
  }

  function Interval(positive: nat, total: nat, z: real, root: real): (real, real)
    requires total > 0
  {
    var (low, high) := Ends(positive, total, z, root);
    (if low < 0.0 then 0.0 else low, if high > 1.0 then 1.0 else high)
  }

  /** `_wilson_interval`: no interval without observations. */
  function WilsonInterval(positive: nat, total: nat, z: real, root: real): Option<(real, real)> {
    if total == 0 then None else Some(Interval(positive, total, z, root))
  }

  /** The score test at critical value `z` does not reject the rate `q`. */
  predicate Accepts(positive: nat, total: nat, z: real, q: real)
    requires total > 0
  {
    var d := Rate(positive, total) - q;
    d * d * total as real <= z * z * (q * (1.0 - q))
  }

  // ----- elementary facts about products

  lemma DenominatorPositive(n: real, z: real)
    requires n > 0.0
    ensures 1.0 + z * z / n >= 1.0
  {
    assert z * z >= 0.0;
  }

  lemma Scale(a: real, b: real, t: real)
    requires t > 0.0
    ensures a <= b <==> a * t <= b * t
  {
  }

  /** `|x| <= m` compares squares. */
  lemma WithinMargin(x: real, m: real)
    requires m >= 0.0
    ensures -m <= x <= m <==> x * x <= m * m
  {
    if x >= 0.0 { SquareOrder(x, m); } else { SquareOrder(-x, m); assert (-x) * (-x) == x * x; }
  }

  // ----- the interval is the set of rates the score test accepts

  /** With w = z*z/n: being within the margin and being accepted are the same
      quadratic inequality, one multiplied by the denominator 1 + w. */
  lemma QuadraticForm(p: real, q: real, w: real, s: real)
    requires w >= 0.0
    requires s == w * (p * (1.0 - p)) + w * w / 4.0
    ensures var x := (1.0 + w) * q - (p + w / 2.0);
            x * x <= s <==> (p - q) * (p - q) <= w * (q * (1.0 - q))
  {
    var x := (1.0 + w) * q - (p + w / 2.0);
    var e := (p - q) * (p - q) - w * (q * (1.0 - q));
    calc {
      x * x - s;
      (1.0 + w) * q * ((1.0 + w) * q) - 2.0 * ((1.0 + w) * q) * (p + w / 2.0) + (p + w / 2.0) * (p + w / 2.0) - s;
      (1.0 + w) * ((1.0 + w) * (q * q) - 2.0 * q * p - q * w + p * p);
      { assert (1.0 + w) * (q * q) - 2.0 * q * p - q * w + p * p == e; }
      (1.0 + w) * e;
    }
    Scale(e, 0.0, 1.0 + w);
    assert e * (1.0 + w) == (1.0 + w) * e;
  }

  lemma RadicandScaled(p: real, n: real, z: real)
    requires n > 0.0
    ensures var w := z * z / n; z * z * Radicand(p, n, z) == w * (p * (1.0 - p)) + w * w / 4.0
  {
    var w, v := z * z / n, p * (1.0 - p);
    assert w * n == z * z;
    var f := z * z / (4.0 * n);
    assert f * (4.0 * n) == z * z;
    assert f == w / 4.0;
    var r := (v + f) / n;
    assert r * n == v + f;
    calc {
      z * z * r;
      w * n * r;
      w * (r * n);
      w * (v + w / 4.0);
    }
  }

  /** Ends and interval membership with the fractions cleared. */
  lemma EndsCleared(p: real, n: real, z: real, root: real, q: real)
    requires n > 0.0 && z > 0.0 && root >= 0.0
    ensures var w := z * z / n;
            var centre, margin := (p + z * z / (2.0 * n)) / (1.0 + w), z * root / (1.0 + w);
            && w >= 0.0 && margin >= 0.0
            && (centre - margin <= q <= centre + margin <==>
                -(z * root) <= (1.0 + w) * q - (p + w / 2.0) <= z * root)
  {
    var w := z * z / n;
    DenominatorPositive(n, z);
    var half := z * z / (2.0 * n);
    assert half * (2.0 * n) == z * z && w * n == z * z;
    assert half == w / 2.0;
    var d := 1.0 + w;
    var centre, margin := (p + half) / d, z * root / d;
    assert centre * d == p + w / 2.0 && margin * d == z * root;
    assert z * root >= 0.0;
    Scale(0.0, margin, d);
    Scale(centre - margin, q, d);
    Scale(q, centre + margin, d);
    assert (centre - margin) * d == centre * d - margin * d;
    assert (centre + margin) * d == centre * d + margin * d;
  }

  lemma MarginSquared(positive: nat, total: nat, z: real, root: real)
    requires total > 0 && IsRoot(root, positive, total, z)
    ensures var (p, w) := (Rate(positive, total), z * z / total as real);
            (z * root) * (z * root) == Spread(p, w)
  {
    RadicandScaled(Rate(positive, total), total as real, z);
    SquareOfProduct(z, root, root * root);
  }

  lemma SquareOfProduct(a: real, b: real, bb: real)
    requires bb == b * b
    ensures (a * b) * (a * b) == a * a * bb
  {
  }

  lemma AcceptScaled(d: real, v: real, n: real, zz: real)
    requires n > 0.0
    ensures d * d <= zz / n * v <==> d * d * n <= zz * v
  {
    var w := zz / n;
    assert w * n == zz;
    Scale(d * d, w * v, n);
    assert w * v * n == (w * n) * v;
  }

  /** Membership with the fractions cleared, w = z*z/n. */
  predicate Cleared(p: real, w: real, bound: real, q: real) {
    -bound <= Offset(p, w, q) <= bound
  }

  function Offset(p: real, w: real, q: real): real {
    (1.0 + w) * q - (p + w / 2.0)
  }

  function Spread(p: real, w: real): real {
    w * (p * (1.0 - p)) + w * w / 4.0
  }

  lemma QuadraticTest(p: real, q: real, w: real)
    requires w >= 0.0
    ensures Offset(p, w, q) * Offset(p, w, q) <= Spread(p, w) <==> (p - q) * (p - q) <= w * (q * (1.0 - q))
  {
    QuadraticForm(p, q, w, Spread(p, w));
  }

  lemma InsideIsCleared(positive: nat, total: nat, z: real, root: real, q: real)
    requires total > 0 && z > 0.0 && IsRoot(root, positive, total, z)
    ensures var (low, high) := Ends(positive, total, z, root);
            low <= high &&
            (low <= q <= high <==> Cleared(Rate(positive, total), z * z / total as real, z * root, q))
  {
    hide Radicand, Rate;
    EndsCleared(Rate(positive, total), total as real, z, root, q);
  }

  lemma TestIsCleared(p: real, q: real, w: real, bound: real, n: real, zz: real)
    requires n > 0.0 && bound >= 0.0 && w == zz / n >= 0.0 && bound * bound == Spread(p, w)
    ensures Cleared(p, w, bound, q) <==> (p - q) * (p - q) * n <= zz * (q * (1.0 - q))
  {
    QuadraticTest(p, q, w);
    hide Offset, Spread;
    ScoreTestCleared(Offset(p, w, q), bound, Spread(p, w), p - q, q * (1.0 - q), n, zz);
  }

  lemma AcceptedIsCleared(positive: nat, total: nat, z: real, root: real, q: real)
    requires total > 0 && z > 0.0 && IsRoot(root, positive, total, z)
    ensures Accepts(positive, total, z, q) <==>
            Cleared(Rate(positive, total), z * z / total as real, z * root, q)
  {
    hide Radicand, Rate, IsRoot;
    var p, w := Rate(positive, total), z * z / total as real;
    assert z * root >= 0.0 by { RootNonNegative(positive, total, z, root); ProductNonNegative(z, root); }
    MarginSquared(positive, total, z, root);
    assert w >= 0.0 by { HalfWidth(total as real, z); }
    hide Offset, Spread, Cleared;
    TestIsCleared(p, q, w, z * root, total as real, z * z);
  }

  /** The interval is exactly the set of rates that the score test accepts. */
  lemma IntervalIsScoreTest(positive: nat, total: nat, z: real, root: real, q: real)
    requires positive <= total && total > 0 && z > 0.0 && IsRoot(root, positive, total, z)
    ensures var (low, high) := Ends(positive, total, z, root);
            low <= high && (low <= q <= high <==> Accepts(positive, total, z, q))
  {
    hide Radicand, Rate, IsRoot, Ends, Accepts, Cleared;
    InsideIsCleared(positive, total, z, root, q);
    AcceptedIsCleared(positive, total, z, root, q);
  }

  lemma RootNonNegative(positive: nat, total: nat, z: real, root: real)
    requires total > 0 && IsRoot(root, positive, total, z)
    ensures root >= 0.0
  {
  }

  lemma ScoreTestCleared(x: real, bound: real, s: real, d: real, v: real, n: real, zz: real)
    requires n > 0.0 && bound >= 0.0 && bound * bound == s
    requires x * x <= s <==> d * d <= zz / n * v
    ensures -bound <= x <= bound <==> d * d * n <= zz * v
  {
    WithinMargin(x, bound);
    AcceptScaled(d, v, n, zz);
  }

  lemma ProductNonNegative(x: real, y: real)
    requires x >= 0.0 && y >= 0.0
    ensures x * y >= 0.0
  {
  }

  lemma Square(x: real) returns (xx: real)
    ensures xx == x * x && xx >= 0.0
    ensures x > 0.0 ==> xx > 0.0
  {
    xx := x * x;
    if x > 0.0 { assert xx / x == x; }
  }

  /** `q * (1 - q)` is non-negative exactly on the rates. */
  lemma RateProduct(q: real)
    ensures q * (1.0 - q) >= 0.0 <==> 0.0 <= q <= 1.0
  {
    if q < 0.0 {
      ProductPositive(-q, 1.0 - q);
    } else if q > 1.0 {
      ProductPositive(q, q - 1.0);
    } else {
      ProductNonNegative(q, 1.0 - q);
    }
  }

  lemma NonNegativeFactor(lhs: real, zz: real, v: real)
    requires zz > 0.0 && 0.0 <= lhs <= zz * v
    ensures v >= 0.0
  {
    if v < 0.0 { ProductPositive(zz, -v); }
  }

  lemma AcceptedIsRate(positive: nat, total: nat, z: real, q: real)
    requires total > 0 && z > 0.0 && Accepts(positive, total, z, q)
    ensures 0.0 <= q <= 1.0
  {
    var dd := Square(Rate(positive, total) - q);
    ProductNonNegative(dd, total as real);
    var zz := Square(z);
    NonNegativeFactor(dd * total as real, zz, q * (1.0 - q));
    RateProduct(q);
  }

  /** The observed rate is inside, the ends are rates, and so the two clamps never bind. */
  lemma ClampsNeverBind(positive: nat, total: nat, z: real, root: real)
    requires positive <= total && total > 0 && z > 0.0 && IsRoot(root, positive, total, z)
    ensures var (low, high) := Ends(positive, total, z, root);
            0.0 <= low <= Rate(positive, total) <= high <= 1.0
    ensures Interval(positive, total, z, root) == Ends(positive, total, z, root)
    ensures WilsonInterval(positive, total, z, root) == Some(Ends(positive, total, z, root))
  {
    var (low, high) := Ends(positive, total, z, root);
    var p := Rate(positive, total);
    RateBounded(positive, total);
    RateAccepted(positive, total, z);
    IntervalIsScoreTest(positive, total, z, root, p);
    IntervalIsScoreTest(positive, total, z, root, low);
    IntervalIsScoreTest(positive, total, z, root, high);
    AcceptedIsRate(positive, total, z, low);
    AcceptedIsRate(positive, total, z, high);
  }

  lemma RateAccepted(positive: nat, total: nat, z: real)
    requires positive <= total && total > 0
    ensures Accepts(positive, total, z, Rate(positive, total))
  {
    var p := Rate(positive, total);
    RateBounded(positive, total);
    RateProduct(p);
    var zz := Square(z);
    ProductNonNegative(zz, p * (1.0 - p));
  }

  lemma RateBounded(positive: nat, total: nat)
    requires positive <= total && total > 0
    ensures 0.0 <= Rate(positive, total) <= 1.0
  {
    var p := Rate(positive, total);
    assert p * total as real == positive as real;
    Scale(0.0, p, total as real);
    Scale(p, 1.0, total as real);
  }

  lemma ComplementRate(positive: nat, total: nat)
    requires positive <= total && total > 0
    ensures Rate(total - positive, total) == 1.0 - Rate(positive, total)
  {
    ComplementQuotient(positive as real, total as real);
  }

  lemma ComplementQuotient(a: real, n: real)
    requires n > 0.0
    ensures (n - a) / n == 1.0 - a / n
  {
    var u, v := a / n, (n - a) / n;
    assert u * n == a && v * n == n - a;
    assert (u + v) * n == u * n + v * n;
    CancelEqual(u + v, 1.0, n);
  }

  lemma CancelEqual(a: real, b: real, t: real)
    requires t > 0.0 && a * t == b * t
    ensures a == b
  {
    Scale(a, b, t);
    Scale(b, a, t);
  }

  lemma MirrorCentre(p: real, w: real, half: real)
    requires w >= 0.0 && half == w / 2.0
    ensures (1.0 - p + half) / (1.0 + w) == 1.0 - (p + half) / (1.0 + w)
  {
    var d := 1.0 + w;
    var a, b := (p + half) / d, (1.0 - p + half) / d;
    assert a * d == p + half && b * d == 1.0 - p + half;
    CancelEqual(b, 1.0 - a, d);
  }

  lemma MirrorRadicand(p: real, n: real, z: real)
    requires n > 0.0
    ensures Radicand(1.0 - p, n, z) == Radicand(p, n, z)
  {
    assert (1.0 - p) * (1.0 - (1.0 - p)) == p * (1.0 - p);
  }

  lemma HalfWidth(n: real, z: real)
    requires n > 0.0
    ensures z * z / (2.0 * n) == z * z / n / 2.0 && z * z / n >= 0.0
  {
    var f := z * z / (2.0 * n);
    assert f * (2.0 * n) == z * z;
    DenominatorPositive(n, z);
  }

  /** Swapping the two outcomes mirrors the interval around one half. */
  lemma MirrorInterval(positive: nat, total: nat, z: real, root: real)
    requires positive <= total && total > 0 && z > 0.0 && IsRoot(root, positive, total, z)
    ensures IsRoot(root, total - positive, total, z)
    ensures var (low, high) := Interval(positive, total, z, root);
            Interval(total - positive, total, z, root) == (1.0 - high, 1.0 - low)
  {
    var n := total as real;
    ComplementRate(positive, total);
    HalfWidth(n, z);
    MirrorCentre(Rate(positive, total), z * z / n, z * z / (2.0 * n));
    MirrorRadicand(Rate(positive, total), n, z);
    hide Radicand, Rate;
    ClampsNeverBind(positive, total, z, root);
    ClampsNeverBind(total - positive, total, z, root);
  }

  /** One more positive out of the same total moves the lower end strictly up. */
  lemma IntervalIncreases(less: nat, more: nat, total: nat, z: real, lessRoot: real, moreRoot: real)
    requires less < more <= total && z > 0.0
    ensures IsRoot(lessRoot, less, total, z) && IsRoot(moreRoot, more, total, z) ==>
              && Interval(less, total, z, lessRoot).0 < Interval(more, total, z, moreRoot).0
              && Interval(less, total, z, lessRoot).1 < Interval(more, total, z, moreRoot).1
  {
    hide IsRoot, Interval;
    if IsRoot(lessRoot, less, total, z) && IsRoot(moreRoot, more, total, z) {
      LowerIncreases(less, more, total, z, lessRoot, moreRoot);
      MirrorInterval(less, total, z, lessRoot);
      MirrorInterval(more, total, z, moreRoot);
      LowerIncreases(total - more, total - less, total, z, moreRoot, lessRoot);
    }
  }

  lemma RateIncreases(less: nat, more: nat, total: nat)
    requires less < more && total > 0
    ensures Rate(less, total) < Rate(more, total)
  {
    var p, p' := Rate(less, total), Rate(more, total);
    assert p * total as real == less as real && p' * total as real == more as real;
    Scale(p', p, total as real);
  }

  lemma LowerIncreases(less: nat, more: nat, total: nat, z: real, lessRoot: real, moreRoot: real)
    requires less < more <= total && z > 0.0
    ensures IsRoot(lessRoot, less, total, z) && IsRoot(moreRoot, more, total, z) ==>
              Interval(less, total, z, lessRoot).0 < Interval(more, total, z, moreRoot).0
  {
    hide IsRoot, Ends, Rate, Accepts;
    if IsRoot(lessRoot, less, total, z) && IsRoot(moreRoot, more, total, z) {
      ClampsNeverBind(less, total, z, lessRoot);
      ClampsNeverBind(more, total, z, moreRoot);
      RateIncreases(less, more, total);
      var q := Ends(less, total, z, lessRoot).0;
      LowerEndTouches(less, total, z, lessRoot);
      NotAccepted(less, more, total, z, q);
      IntervalIsScoreTest(more, total, z, moreRoot, q);
    }
  }

  lemma NotAccepted(less: nat, more: nat, total: nat, z: real, q: real)
    requires less < more && total > 0 && q <= Rate(less, total)
    requires var d := Rate(less, total) - q; d * d * total as real == z * z * (q * (1.0 - q))
    ensures !Accepts(more, total, z, q)
  {
    RateIncreases(less, more, total);
    var a, b := Rate(less, total) - q, Rate(more, total) - q;
    StrictSquareOrder(a, b);
    StrictScale(a * a, b * b, total as real);
  }

  lemma StrictScale(a: real, b: real, t: real)
    requires t > 0.0 && a < b
    ensures a * t < b * t
  {
    ProductPositive(b - a, t);
    assert (b - a) * t == b * t - a * t;
  }

  /** At the lower end the score test holds with equality. */
  lemma LowerEndTouches(positive: nat, total: nat, z: real, root: real)
    requires positive <= total && total > 0 && z > 0.0 && IsRoot(root, positive, total, z)
    ensures var q := Ends(positive, total, z, root).0;
            var d := Rate(positive, total) - q;
            d * d * total as real == z * z * (q * (1.0 - q))
  {
    hide Radicand, IsRoot, Rate, Ends;
    var p, n := Rate(positive, total), total as real;
    var q := Ends(positive, total, z, root).0;
    var w := z * z / n;
    var s := Spread(p, w);
    LowerEndValue(positive, total, z, root);
    MarginSquared(positive, total, z, root);
    EqualSquares((1.0 + w) * q - (p + w / 2.0), z * root, s);
    assert w >= 0.0 by { HalfWidth(n, z); }
    QuadraticEquality(p, q, w, s);
    EqualityScaled(p - q, q * (1.0 - q), n, z * z);
  }

  lemma EqualSquares(x: real, bound: real, s: real)
    requires x == -bound && bound * bound == s
    ensures x * x == s
  {
  }

  lemma LowerEndValue(positive: nat, total: nat, z: real, root: real)
    requires total > 0
    ensures var (p, w) := (Rate(positive, total), z * z / total as real);
            (1.0 + w) * Ends(positive, total, z, root).0 - (p + w / 2.0) == -(z * root)
  {
    hide Rate;
    var n := total as real;
    HalfWidth(n, z);
    LowerEndCleared(Rate(positive, total), z * z / n, z * root, z * z / (2.0 * n));
  }

  lemma LowerEndCleared(p: real, w: real, bound: real, half: real)
    requires w >= 0.0 && half == w / 2.0
    ensures (1.0 + w) * ((p + half) / (1.0 + w) - bound / (1.0 + w)) - (p + w / 2.0) == -bound
  {
    var d := 1.0 + w;
    var a, b := (p + half) / d, bound / d;
    assert a * d == p + half && b * d == bound;
    assert d * (a - b) == a * d - b * d;
  }

  lemma EqualityScaled(d: real, v: real, n: real, zz: real)
    requires n > 0.0 && d * d == zz / n * v
    ensures d * d * n == zz * v
  {
    var w := zz / n;
    assert w * n == zz;
    assert w * v * n == (w * n) * v;
  }

  lemma QuadraticEquality(p: real, q: real, w: real, s: real)
    requires w >= 0.0
    requires s == w * (p * (1.0 - p)) + w * w / 4.0
    requires var x := (1.0 + w) * q - (p + w / 2.0); x * x == s
    ensures (p - q) * (p - q) == w * (q * (1.0 - q))
  {
    var x := (1.0 + w) * q - (p + w / 2.0);
    var e := (p - q) * (p - q) - w * (q * (1.0 - q));
    calc {
      0.0;
      x * x - s;
      (1.0 + w) * q * ((1.0 + w) * q) - 2.0 * ((1.0 + w) * q) * (p + w / 2.0) + (p + w / 2.0) * (p + w / 2.0) - s;
      (1.0 + w) * ((1.0 + w) * (q * q) - 2.0 * q * p - q * w + p * p);
      { assert (1.0 + w) * (q * q) - 2.0 * q * p - q * w + p * p == e; }
      (1.0 + w) * e;
    }
    assert e * (1.0 + w) == (1.0 + w) * e;
    Scale(e, 0.0, 1.0 + w);
    Scale(0.0, e, 1.0 + w);
  }
}
