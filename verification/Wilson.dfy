/** The Wilson score interval, over the reals.  The square root is any nonnegative root: a parameter
    whose square is the radicand. */
module Wilson {
  import opened Wrappers

  function Max(a: real, b: real): real { if a < b then b else a }

  function Min(a: real, b: real): real { if a < b then a else b }

  function Probability(k: int, n: int): real
    requires n > 0
  {
    k as real / n as real
  }

  function Radicand(k: int, n: int, z: real): real
    requires n > 0
  {
    var p, m := Probability(k, n), n as real;
    p * (1.0 - p) / m + z * z / (4.0 * m * m)
  }

  ghost predicate IsRoot(s: real, x: real) {
    s >= 0.0 && s * s == x
  }

  function Denominator(n: int, z: real): (d: real)
    requires n > 0
    ensures d >= 1.0
  {
    SquareOver(z, n as real);
    1.0 + z * z / n as real
  }

  function Center(k: int, n: int, z: real): real
    requires n > 0
  {
    (Probability(k, n) + z * z / (2.0 * n as real)) / Denominator(n, z)
  }

  function Margin(n: int, z: real, root: real): real
    requires n > 0
  {
    z * root / Denominator(n, z)
  }

  datatype IntervalError = BadCounts

  /** wilson_interval; root stands for the square root of the radicand. */
  function Interval(k: int, n: int, z: real, root: real): Result<(real, real), IntervalError> {
    if n <= 0 || !(0 <= k <= n) then Err(BadCounts)
    else
      var center, margin := Center(k, n, z), Margin(n, z, root);
      Ok((if k == 0 then 0.0 else Max(0.0, center - margin),
          if k == n then 1.0 else Min(1.0, center + margin)))
  }

  // ---------------------------------------------------------------- algebra

  lemma PositiveProduct(x: real, y: real)
    requires x > 0.0 && y > 0.0
    ensures x * y > 0.0
  {
  }

  lemma NonnegativeProduct(x: real, y: real)
    requires x >= 0.0 && y >= 0.0
    ensures x * y >= 0.0
  {
  }

  lemma SquareOver(z: real, m: real)
    requires m > 0.0
    ensures z * z / m >= 0.0
  {
    assert z * z >= 0.0;
    OverPositive(z * z, m);
  }

  lemma OverPositive(x: real, m: real)
    requires m > 0.0 && x >= 0.0
    ensures x / m >= 0.0
  {
    ScaleCompare(0.0, x / m, m);
  }

  lemma OverIs(x: real, y: real, m: real)
    requires m > 0.0 && x == y * m
    ensures x / m == y
  {
    assert (x / m - y) * m == 0.0;
  }

  /** A number whose square is at most that of a nonnegative one is at most that one. */
  lemma SquaresCompare(x: real, y: real)
    requires y >= 0.0 && x * x <= y * y
    ensures x <= y
  {
    if x > y {
      PositiveProduct(x - y, x + y);
    }
  }

  /** With a = z^2 / n and w = z * root: w^2 = a p (1 - p) + a^2 / 4. */
  lemma ScaledRoot(k: int, n: int, z: real, root: real)
    requires n > 0 && IsRoot(root, Radicand(k, n, z))
    ensures var p, a, w := Probability(k, n), z * z / n as real, z * root;
            w * w == a * (p * (1.0 - p)) + a * a / 4.0
  {
    var p, m, a := Probability(k, n), n as real, z * z / n as real;
    var q := p * (1.0 - p);
    var u, v := q / m, z * z / (4.0 * m * m);
    assert a * m == z * z;
    assert u * m == q;
    assert v * (4.0 * m * m) == z * z;
    assert (z * root) * (z * root) == (z * z) * (root * root) == (z * z) * (u + v);
    assert (z * z) * u == a * q by {
      assert (z * z) * u == (a * m) * u == a * (u * m);
    }
    assert (z * z) * v == a * a / 4.0 by {
      assert (4.0 * v * m) * m == a * m;
      Cancel(4.0 * v * m, a, m);
      assert (z * z) * v == (a * m) * v == a * (v * m);
    }
  }

  lemma Cancel(x: real, y: real, m: real)
    requires m > 0.0 && x * m == y * m
    ensures x == y
  {
    assert (x - y) * m == 0.0;
  }

  /** The two inequalities behind the lower bound, cleared of the denominator. */
  lemma RootBelowSum(p: real, a: real, w: real)
    requires 0.0 <= p <= 1.0 && a >= 0.0 && w >= 0.0
    requires w * w == a * (p * (1.0 - p)) + a * a / 4.0
    ensures w <= p + a / 2.0
  {
    var q, ap := p * (1.0 - p), a * p;
    NonnegativeProduct(a, p);
    NonnegativeProduct(ap, p);
    assert (p + a / 2.0) * (p + a / 2.0) == p * p + ap + a * a / 4.0;
    assert a * q == ap - ap * p;
    NonnegativeProduct(p, p);
    assert w * w <= (p + a / 2.0) * (p + a / 2.0);
    SquaresCompare(w, p + a / 2.0);
  }

  lemma RootAboveDifference(p: real, a: real, w: real)
    requires 0.0 <= p <= 1.0 && a >= 0.0 && w >= 0.0
    requires w * w == a * (p * (1.0 - p)) + a * a / 4.0
    ensures a / 2.0 - a * p <= w
  {
    var q, ap := p * (1.0 - p), a * p;
    var b := a / 2.0 - ap;
    NonnegativeProduct(p, 1.0 - p);
    NonnegativeProduct(a, q);
    NonnegativeProduct(a, p);
    NonnegativeProduct(a, ap);
    NonnegativeProduct(a * ap, 1.0 - p);
    assert b * b == a * a / 4.0 - a * ap + ap * ap;
    assert ap * ap == (a * ap) * p;
    assert b * b <= w * w;
    SquaresCompare(b, w);
  }

  lemma LowerFromAlgebra(c: real, m: real, p: real, a: real, w: real)
    requires 0.0 <= p <= 1.0 && a >= 0.0 && w >= 0.0
    requires w * w == a * (p * (1.0 - p)) + a * a / 4.0
    requires c * (1.0 + a) == p + a / 2.0 && m * (1.0 + a) == w
    ensures 0.0 <= c - m <= p
  {
    RootBelowSum(p, a, w);
    RootAboveDifference(p, a, w);
    var d, ap := 1.0 + a, a * p;
    assert (c - m) * d == p + a / 2.0 - w;
    assert p * d == p + ap;
    ScaleCompare(0.0, c - m, d);
    ScaleCompare(c - m, p, d);
  }

  /** A point is between the bounds exactly when it satisfies the score inequality. */
  lemma InvertAlgebra(c: real, m: real, p: real, a: real, w: real, p0: real)
    requires a >= 0.0 && w >= 0.0
    requires w * w == a * (p * (1.0 - p)) + a * a / 4.0
    requires c * (1.0 + a) == p + a / 2.0 && m * (1.0 + a) == w
    ensures c - m <= p0 <= c + m <==> ScoreHolds(p, a, p0)
  {
    var d, u := 1.0 + a, p + a / 2.0;
    var x := p0 * d - u;
    assert c - m <= p0 <= c + m <==> x * x <= w * w by {
      BetweenIffSquare(c, m, d, u, w, p0);
    }
    assert x * x <= w * w <==> ScoreHolds(p, a, p0) by {
      ScoreQuadratic(p, a, w, p0, x);
    }
  }

  /** Being between the bounds, as a comparison of squares. */
  lemma BetweenIffSquare(c: real, m: real, d: real, u: real, w: real, p0: real)
    requires d > 0.0 && c * d == u && m * d == w && w >= 0.0
    ensures c - m <= p0 <= c + m <==> (p0 * d - u) * (p0 * d - u) <= w * w
  {
    BetweenBounds(c, m, d, u, w, p0);
    AbsCompare(p0 * d - u, w);
  }

  /** The score test's inequality, with a = z^2 / n. */
  predicate ScoreHolds(p: real, a: real, p0: real) {
    (p - p0) * (p - p0) <= a * (p0 * (1.0 - p0))
  }

  lemma CenterOf(k: int, n: int, z: real)
    requires n > 0
    ensures var p, a := Probability(k, n), z * z / n as real;
            Center(k, n, z) * (1.0 + a) == p + a / 2.0
  {
    var p, m, a := Probability(k, n), n as real, z * z / n as real;
    assert a * m == z * z;
    OverIs(z * z, a / 2.0, 2.0 * m);
    assert Center(k, n, z) == (p + a / 2.0) / (1.0 + a);
  }

  lemma MarginOf(n: int, z: real, root: real)
    requires n > 0
    ensures Margin(n, z, root) * (1.0 + z * z / n as real) == z * root
  {
  }

  lemma ProbabilityInUnit(k: int, n: int)
    requires n > 0 && 0 <= k <= n
    ensures 0.0 <= Probability(k, n) <= 1.0
    ensures Probability(n - k, n) == 1.0 - Probability(k, n)
  {
    var p, m := Probability(k, n), n as real;
    assert p * m == k as real;
    OverPositive(k as real, m);
    OverIs(m - k as real, 1.0 - p, m);
    OverPositive(m - k as real, m);
  }

  // ---------------------------------------------------------------- theorems

  /** The unclamped lower bound is between zero and the observed proportion. */
  lemma LowerInRange(k: int, n: int, z: real, root: real)
    requires n > 0 && 0 <= k <= n && z >= 0.0 && IsRoot(root, Radicand(k, n, z))
    ensures 0.0 <= Center(k, n, z) - Margin(n, z, root) <= Probability(k, n)
  {
    var p, a, w := Probability(k, n), z * z / n as real, z * root;
    ProbabilityInUnit(k, n);
    SquareOver(z, n as real);
    ScaledRoot(k, n, z, root);
    NonnegativeProduct(z, root);
    CenterOf(k, n, z);
    MarginOf(n, z, root);
    LowerFromAlgebra(Center(k, n, z), Margin(n, z, root), p, a, w);
  }

  /** Exchanging successes and failures mirrors the center and keeps the radicand. */
  lemma MirrorCenter(k: int, n: int, z: real)
    requires n > 0 && 0 <= k <= n
    ensures Center(n - k, n, z) == 1.0 - Center(k, n, z)
    ensures Radicand(n - k, n, z) == Radicand(k, n, z)
  {
    var p, a := Probability(k, n), z * z / n as real;
    ProbabilityInUnit(k, n);
    SquareOver(z, n as real);
    CenterOf(k, n, z);
    CenterOf(n - k, n, z);
    assert (1.0 - Center(k, n, z)) * (1.0 + a) == 1.0 + a - (p + a / 2.0);
    Cancel(Center(n - k, n, z), 1.0 - Center(k, n, z), 1.0 + a);
    assert (1.0 - p) * (1.0 - (1.0 - p)) == p * (1.0 - p);
  }

  /** Main theorem: the unclamped bounds already satisfy 0 <= lower <= k/n <= upper <= 1. */
  lemma BoundsInRange(k: int, n: int, z: real, root: real)
    requires n > 0 && 0 <= k <= n && z >= 0.0 && IsRoot(root, Radicand(k, n, z))
    ensures 0.0 <= Center(k, n, z) - Margin(n, z, root) <= Probability(k, n)
                <= Center(k, n, z) + Margin(n, z, root) <= 1.0
  {
    LowerInRange(k, n, z, root);
    MirrorCenter(k, n, z);
    ProbabilityInUnit(k, n);
    LowerInRange(n - k, n, z, root);
  }

  /** At the ends the special cases return what exact arithmetic gives anyway. */
  lemma EndsAreExact(n: int, z: real, root: real)
    requires n > 0 && z >= 0.0 && IsRoot(root, Radicand(0, n, z))
    ensures Center(0, n, z) - Margin(n, z, root) == 0.0
    ensures Center(n, n, z) + Margin(n, z, root) == 1.0
  {
    LowerInRange(0, n, z, root);
    MirrorCenter(0, n, z);
    OverIs(0.0, 0.0, n as real);
  }

  /** Main theorem: clamping and the special cases change nothing; the interval is center plus and
      minus margin for all counts, and is refused exactly for impossible ones. */
  lemma ClampingChangesNothing(k: int, n: int, z: real, root: real)
    requires z >= 0.0 && (n > 0 ==> IsRoot(root, Radicand(k, n, z)))
    ensures Interval(k, n, z, root) ==
            if n > 0 && 0 <= k <= n then
              Ok((Center(k, n, z) - Margin(n, z, root), Center(k, n, z) + Margin(n, z, root)))
            else Err(BadCounts)
  {
    if n > 0 && 0 <= k <= n {
      BoundsInRange(k, n, z, root);
      if k == 0 {
        EndsAreExact(n, z, root);
      }
      if k == n {
        MirrorCenter(n, n, z);
        EndsAreExact(n, z, root);
      }
    }
  }

  /** Main theorem: the interval of n - k successes is the mirror image of that of k. */
  lemma IntervalMirrors(k: int, n: int, z: real, root: real)
    requires n > 0 && 0 <= k <= n && z >= 0.0 && IsRoot(root, Radicand(k, n, z))
    ensures var (lower, upper) := Interval(k, n, z, root).value;
            Interval(n - k, n, z, root) == Ok((1.0 - upper, 1.0 - lower))
  {
    MirrorCenter(k, n, z);
    ClampingChangesNothing(k, n, z, root);
    ClampingChangesNothing(n - k, n, z, root);
  }

  /** The score test does not reject p0: the observed proportion lies within z standard errors of it. */
  ghost predicate Plausible(k: int, n: int, z: real, p0: real)
    requires n > 0
  {
    ScoreHolds(Probability(k, n), z * z / n as real, p0)
  }

  /** Main theorem: the interval holds exactly the proportions that the score test does not reject. */
  lemma IntervalInvertsScoreTest(k: int, n: int, z: real, root: real, p0: real)
    requires n > 0 && 0 <= k <= n && z >= 0.0 && IsRoot(root, Radicand(k, n, z))
    ensures var (lower, upper) := Interval(k, n, z, root).value;
            lower <= p0 <= upper <==> Plausible(k, n, z, p0)
  {
    ClampingChangesNothing(k, n, z, root);
    BoundsInvertScoreTest(k, n, z, root, p0);
  }

  lemma BoundsInvertScoreTest(k: int, n: int, z: real, root: real, p0: real)
    requires n > 0 && 0 <= k <= n && z >= 0.0 && IsRoot(root, Radicand(k, n, z))
    ensures Center(k, n, z) - Margin(n, z, root) <= p0 <= Center(k, n, z) + Margin(n, z, root)
            <==> Plausible(k, n, z, p0)
  {
    SquareOver(z, n as real);
    ScaledRoot(k, n, z, root);
    NonnegativeProduct(z, root);
    CenterOf(k, n, z);
    MarginOf(n, z, root);
    InvertAlgebra(Center(k, n, z), Margin(n, z, root), Probability(k, n), z * z / n as real, z * root, p0);
  }

  /** Between the bounds, with the denominator cleared. */
  lemma BetweenBounds(c: real, m: real, d: real, u: real, w: real, p0: real)
    requires d > 0.0 && c * d == u && m * d == w
    ensures c - m <= p0 <= c + m <==> -w <= p0 * d - u <= w
  {
    assert (c - m) * d == u - w && (c + m) * d == u + w;
    ScaleCompare(c - m, p0, d);
    ScaleCompare(p0, c + m, d);
  }

  lemma ScaleCompare(x: real, y: real, d: real)
    requires d > 0.0
    ensures x <= y <==> x * d <= y * d
  {
    if x <= y {
      NonnegativeProduct(y - x, d);
    } else {
      PositiveProduct(x - y, d);
    }
  }

  lemma AbsCompare(x: real, w: real)
    requires w >= 0.0
    ensures -w <= x <= w <==> x * x <= w * w
  {
    if -w <= x <= w {
      NonnegativeProduct(w - x, w + x);
    } else if x * x <= w * w {
      SquaresCompare(x, w);
      SquaresCompare(-x, w);
    }
  }

  /** The score test's inequality, multiplied out and completed to a square. */
  lemma ScoreQuadratic(p: real, a: real, w: real, p0: real, x: real)
    requires a >= 0.0 && w * w == a * (p * (1.0 - p)) + a * a / 4.0
    requires x == p0 * (1.0 + a) - (p + a / 2.0)
    ensures x * x <= w * w <==> ScoreHolds(p, a, p0)
  {
    var gap := (p - p0) * (p - p0) - a * (p0 * (1.0 - p0));
    assert x * x - w * w == (1.0 + a) * gap;
    if gap <= 0.0 {
      assert (1.0 + a) * gap <= 0.0;
    } else {
      assert (1.0 + a) * gap > 0.0;
    }
  }
}
