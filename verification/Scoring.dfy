/**
 Confidence and re-rank scores over the reals (agent/memory/scoring.py and its worker
 copy workers/common/scoring.py).
 */
module Scoring {
  import opened Prelude

  /** The two library functions the scores use. */
  datatype Math = Math(sqrt: real -> real, exp: real -> real)

  ghost predicate IsSqrt(sqrt: real -> real) {
    forall x :: x >= 0.0 ==> sqrt(x) >= 0.0 && sqrt(x) * sqrt(x) == x
  }

  ghost predicate AddsExponents(exp: real -> real, x: real, y: real) {
    exp(x + y) == exp(x) * exp(y)
  }

  ghost predicate IsExp(exp: real -> real) {
    && (forall x :: exp(x) > 0.0)
    && (forall x, y :: x < y ==> exp(x) < exp(y))
    && (forall x, y :: AddsExponents(exp, x, y))
  }

  ghost predicate Faithful(m: Math) {
    IsSqrt(m.sqrt) && IsExp(m.exp)
  }

  const Z: real := 1.96
  const CONFIDENCE_FLOOR: real := 0.15

  function Radicand(p: real, n: real, z: real): real
    requires n > 0.0
  {
    (p * (1.0 - p) + z * z / (4.0 * n)) / n
  }

  function Margin(m: Math, p: real, n: real, z: real): real
    requires n > 0.0
  {
    z * m.sqrt(Radicand(p, n, z))
  }

  /** The lower end for an observed proportion `p` of `n` attempts. */
  function ScoreBound(p: real, n: real, z: real, margin: real): real
    requires n > 0.0 && 1.0 + z * z / n != 0.0
  {
    var denom := 1.0 + z * z / n;
    var centre := p + z * z / (2.0 * n);
    (centre - margin) / denom
  }

  function Rate(successes: nat, attempts: nat): real
    requires attempts > 0
  {
    successes as real / attempts as real
  }

  function WilsonLb(m: Math, successes: nat, attempts: nat, z: real): real {
    if attempts == 0 then 0.0
    else
      DenominatorNonzero(z, attempts as real);
      var p, n := Rate(successes, attempts), attempts as real;
      var bound := ScoreBound(p, n, z, Margin(m, p, n, z));
      if bound > 0.0 then bound else 0.0
  }

  lemma DenominatorNonzero(z: real, n: real)
    requires n > 0.0
    ensures 1.0 + z * z / n > 0.0
  {
    var zz := z * z;
    assert zz >= 0.0;
    assert zz / n >= 0.0;
  }

  function DecayedConfidence(m: Math, successes: nat, attempts: nat, ageDays: real): real {
    WilsonLb(m, successes, attempts, Z) * m.exp(-ageDays / 90.0)
  }

  function Recency(m: Math, ageDays: real): real {
    m.exp(-ageDays / 14.0)
  }

  /** Jaccard similarity; no shared context when both sides are empty. */
  function EntityAffinity(item: set<string>, incident: set<string>): real {
    if item + incident == {} then 0.0 else |item * incident| as real / |item + incident| as real
  }

  /** `hybrid`: None stands for the hard filter's negative infinity. */
  function Hybrid(m: Math, similarity: real, stored: real, successes: nat, attempts: nat, ageDays: real,
                  active: bool, item: set<string>, incident: set<string>): Option<real>
  {
    if stored < CONFIDENCE_FLOOR || !active then None
    else Some(0.45 * similarity + 0.30 * (WilsonLb(m, successes, attempts, Z) * m.exp(-ageDays / 90.0))
              + 0.15 * Recency(m, ageDays) + 0.10 * EntityAffinity(item, incident))
  }

  // ----- the score interval as a quadratic in the bound

  /** `w` is a proportion at distance exactly z standard errors from the observed `p`; k is z*z/n. */
  predicate OnInterval(p: real, k: real, w: real) {
    (p - w) * (p - w) == k * (w * (1.0 - w))
  }

  /** The two ends of the interval for `p`, through the half-width `margin`. */
  predicate Ends(p: real, k: real, margin: real, low: real, high: real) {
    && margin >= 0.0
    && margin * margin == k * (p * (1.0 - p)) + k * k / 4.0
    && low * (1.0 + k) == p + k / 2.0 - margin
    && high * (1.0 + k) == p + k / 2.0 + margin
  }

  lemma SquareOrder(a: real, b: real)
    requires b >= 0.0 && a * a <= b * b
    ensures a <= b
  {
    var d, e := a - b, a + b;
    assert d * e == a * a - b * b;
    if d > 0.0 {
      FactorSign(d, e);
    }
  }

  lemma FactorSign(x: real, y: real)
    requires y > 0.0
    ensures x * y >= 0.0 <==> x >= 0.0
    ensures x * y > 0.0 <==> x > 0.0
  {
  }

  lemma ProductNonnegative(x: real, y: real)
    requires x >= 0.0 && y >= 0.0
    ensures x * y >= 0.0
  {
  }

  lemma ProductOrder(x: real, y: real, f: real)
    requires x <= y && f >= 0.0
    ensures x * f <= y * f
  {
    ProductNonnegative(y - x, f);
    assert (y - x) * f == y * f - x * f;
  }

  lemma DivideBack(x: real, y: real)
    requires y != 0.0
    ensures x / y * y == x
  {
  }

  lemma ProductPositive(x: real, y: real, product: real)
    requires x > 0.0 && y > 0.0 && product == x * y
    ensures product > 0.0
  {
  }

  lemma Quotient(x: real, y: real, q: real)
    requires y != 0.0 && q * y == x
    ensures x / y == q
  {
  }

  lemma ZeroFactor(x: real, y: real)
    requires x * y == 0.0
    ensures x == 0.0 || y == 0.0
  {
    if x > 0.0 {
      FactorSign(y, x);
      FactorSign(-y, x);
    } else if x < 0.0 {
      FactorSign(y, -x);
      FactorSign(-y, -x);
    }
  }

  /** Both ends solve the equation. */
  lemma EndsSolve(p: real, k: real, margin: real, low: real, high: real)
    requires k > 0.0 && Ends(p, k, margin, low, high)
    ensures OnInterval(p, k, low) && OnInterval(p, k, high)
  {
    RootSolves(p, k, margin, low);
    RootSolves(p, k, -margin, high);
  }

  lemma RootSolves(p: real, k: real, d: real, w: real)
    requires k > 0.0 && d * d == k * (p * (1.0 - p)) + k * k / 4.0 && w * (1.0 + k) == p + k / 2.0 - d
    ensures OnInterval(p, k, w)
  {
    var u := w * (1.0 + k);
    var c := p + k / 2.0;
    assert (c - u) * (c - u) == d * d;
    assert c * c - 2.0 * (u * c) + u * u == k * p - k * (p * p) + k * k / 4.0;
    assert c * c == p * p + k * p + k * k / 4.0;
    assert p * p * (1.0 + k) - 2.0 * (u * c) + u * u == 0.0;
    assert (1.0 + k) * (p * p - 2.0 * (w * c) + w * u) == 0.0;
    assert p * p - 2.0 * (w * c) + w * u == 0.0;
    assert w * c == w * p + w * k / 2.0;
    assert w * u == w * w + k * (w * w);
    assert (p - w) * (p - w) == p * p - 2.0 * (w * p) + w * w;
  }

  /** The half-width against the two distances that decide the range. */
  lemma MarginSquares(p: real, k: real, margin: real)
    requires margin * margin == k * (p * (1.0 - p)) + k * k / 4.0
    ensures (p + k / 2.0) * (p + k / 2.0) - margin * margin == (1.0 + k) * (p * p)
    ensures margin * margin - (k * (0.5 - p)) * (k * (0.5 - p)) == k * (p * (1.0 - p)) * (1.0 + k)
  {
    assert (p + k / 2.0) * (p + k / 2.0) == p * p + k * p + k * k / 4.0;
    assert k * (p * (1.0 - p)) == k * p - k * (p * p);
    var d := 0.5 - p;
    assert (k * d) * (k * d) == (k * k) * (d * d);
    assert d * d == 0.25 - p + p * p;
    assert (k * k) * (d * d) == k * k / 4.0 - (k * k) * p + (k * k) * (p * p);
    assert k * (p * (1.0 - p)) * (1.0 + k) == k * (p * (1.0 - p)) + (k * k) * (p * (1.0 - p));
  }

  lemma MarginAboveHalf(p: real, k: real, margin: real)
    requires k > 0.0 && 0.0 <= p <= 1.0 && margin >= 0.0
    requires margin * margin == k * (p * (1.0 - p)) + k * k / 4.0
    ensures k * (0.5 - p) <= margin && -(k * (0.5 - p)) <= margin
    ensures p > 0.0 ==> k * (0.5 - p) < margin
  {
    var half := k * (0.5 - p);
    var room := k * (p * (1.0 - p)) * (1.0 + k);
    MarginSquares(p, k, margin);
    assert p * (1.0 - p) >= 0.0;
    FactorSign(k * (p * (1.0 - p)), 1.0 + k);
    assert room >= 0.0;
    SquareOrder(half, margin);
    assert (-half) * (-half) == half * half;
    SquareOrder(-half, margin);
    if p == 1.0 {
      assert half == -0.5 * k;
    } else if p > 0.0 {
      assert p * (1.0 - p) > 0.0;
      FactorSign(k * (p * (1.0 - p)), 1.0 + k);
    }
  }

  lemma LowEndNonnegative(p: real, k: real, margin: real, low: real)
    requires k > 0.0 && 0.0 <= p && margin >= 0.0 && low * (1.0 + k) == p + k / 2.0 - margin
    requires margin * margin == k * (p * (1.0 - p)) + k * k / 4.0
    ensures low >= 0.0
  {
    MarginSquares(p, k, margin);
    ProductNonnegative(p, p);
    ProductNonnegative(1.0 + k, p * p);
    SquareOrder(margin, p + k / 2.0);
    FactorSign(low, 1.0 + k);
  }

  lemma ScaledGaps(p: real, k: real, margin: real, low: real, high: real)
    requires low * (1.0 + k) == p + k / 2.0 - margin && high * (1.0 + k) == p + k / 2.0 + margin
    ensures (p - low) * (1.0 + k) == margin - k * (0.5 - p)
    ensures (high - p) * (1.0 + k) == margin + k * (0.5 - p)
  {
  }

  lemma EndsRange(p: real, k: real, margin: real, low: real, high: real)
    requires k > 0.0 && 0.0 <= p <= 1.0 && Ends(p, k, margin, low, high)
    ensures 0.0 <= low <= p <= high
    ensures p > 0.0 ==> low < p
  {
    LowEndNonnegative(p, k, margin, low);
    MarginAboveHalf(p, k, margin);
    ScaledGaps(p, k, margin, low, high);
    FactorSign(p - low, 1.0 + k);
    FactorSign(high - p, 1.0 + k);
  }

  lemma Factored(p: real, k: real, margin: real, low: real, high: real, x: real)
    requires k > 0.0 && Ends(p, k, margin, low, high)
    ensures (p - x) * (p - x) - k * (x * (1.0 - x)) == (1.0 + k) * ((x - low) * (x - high))
  {
    var c := p + k / 2.0;
    MarginSquares(p, k, margin);
    assert (1.0 + k) * ((1.0 + k) * (low * high)) == c * c - margin * margin by {
      assert (low * (1.0 + k)) * (high * (1.0 + k)) == (c - margin) * (c + margin);
    }
    assert (1.0 + k) * ((1.0 + k) * (low * high) - p * p) == 0.0;
    assert (1.0 + k) * (low * high) == p * p;
    assert (low + high) * (1.0 + k) == 2.0 * c;
    assert (x - low) * (x - high) == x * x - (low + high) * x + low * high;
    assert (1.0 + k) * ((low + high) * x) == 2.0 * c * x;
    assert (p - x) * (p - x) == p * p - 2.0 * (p * x) + x * x;
  }

  lemma LowEndIsSmallest(p: real, k: real, margin: real, low: real, high: real, x: real)
    requires k > 0.0 && Ends(p, k, margin, low, high) && OnInterval(p, k, x)
    ensures low <= x
  {
    Factored(p, k, margin, low, high, x);
    var product := (x - low) * (x - high);
    assert (1.0 + k) * product == 0.0;
    ZeroFactor(1.0 + k, product);
    ZeroFactor(x - low, x - high);
    FactorSign(high - low, 1.0 + k);
  }

  /** A point at most `p`, strictly farther from `p` than the interval allows, lies below the low end. */
  lemma BelowLowEnd(p: real, k: real, margin: real, low: real, high: real, x: real)
    requires k > 0.0 && 0.0 <= p <= 1.0 && Ends(p, k, margin, low, high)
    requires x < p && (p - x) * (p - x) > k * (x * (1.0 - x))
    ensures x < low
  {
    EndsRange(p, k, margin, low, high);
    Factored(p, k, margin, low, high, x);
    FactorSign((x - low) * (x - high), 1.0 + k);
    assert (low - x) * (high - x) == (x - low) * (x - high);
    FactorSign(low - x, high - x);
  }

  lemma NotAboveLowEnd(p: real, k: real, margin: real, low: real, high: real, x: real)
    requires k > 0.0 && 0.0 <= p <= 1.0 && Ends(p, k, margin, low, high)
    requires x < p && (p - x) * (p - x) >= k * (x * (1.0 - x))
    ensures x <= low
  {
    EndsRange(p, k, margin, low, high);
    Factored(p, k, margin, low, high, x);
    FactorSign((x - low) * (x - high), 1.0 + k);
    assert (low - x) * (high - x) == (x - low) * (x - high);
    FactorSign(low - x, high - x);
  }

  // ----- `wilson_lb` itself

  function Spread(z: real, attempts: nat): real
    requires attempts > 0
  {
    z * z / attempts as real
  }

  predicate Counted(successes: nat, attempts: nat, z: real) {
    successes <= attempts && attempts > 0 && z > 0.0
  }

  lemma RateAndSpread(successes: nat, attempts: nat, z: real)
    requires Counted(successes, attempts, z)
    ensures 0.0 <= Rate(successes, attempts) <= 1.0
    ensures Spread(z, attempts) > 0.0
  {
    var n, p, k := attempts as real, Rate(successes, attempts), Spread(z, attempts);
    assert p * n == successes as real && (1.0 - p) * n == (attempts - successes) as real;
    FactorSign(p, n);
    FactorSign(1.0 - p, n);
    SpreadPositive(z, n);
  }

  lemma SpreadPositive(z: real, n: real)
    requires z > 0.0 && n > 0.0
    ensures z * z / n > 0.0
  {
    var zz := z * z;
    ProductPositive(z, z, zz);
    ProductPositive(1.0 / n, zz, zz / n);
  }

  lemma SpreadTimes(z: real, attempts: nat)
    requires attempts > 0 && z > 0.0
    ensures Spread(z, attempts) * attempts as real == z * z > 0.0
  {
    FactorSign(z, z);
    DivideBack(z * z, attempts as real);
  }

  lemma MarginIsHalfWidth(z: real, n: real, p: real, root: real)
    requires n > 0.0 && root * root == Radicand(p, n, z)
    ensures (z * root) * (z * root) == (z * z / n) * (p * (1.0 - p)) + (z * z / n) * (z * z / n) / 4.0
  {
    var k, q := z * z / n, p * (1.0 - p);
    assert z * z / (4.0 * n) == k / 4.0;
    assert (z * root) * (z * root) == (z * z) * (root * root);
    assert (z * z) * ((q + k / 4.0) / n) == k * (q + k / 4.0);
  }

  lemma RadicandNonnegative(z: real, n: real, p: real)
    requires n > 0.0 && 0.0 <= p <= 1.0
    ensures Radicand(p, n, z) >= 0.0
  {
    var q := z * z / (4.0 * n);
    assert q * (4.0 * n) == z * z;
    FactorSign(q, 4.0 * n);
    ProductNonnegative(p, 1.0 - p);
    var r := (p * (1.0 - p) + q) / n;
    assert r * n == p * (1.0 - p) + q;
    FactorSign(r, n);
  }

  lemma EndsFrom(p: real, k: real, margin: real, low: real, high: real)
    requires k > 0.0 && 0.0 <= p <= 1.0 && margin >= 0.0
    requires margin * margin == k * (p * (1.0 - p)) + k * k / 4.0
    requires low == (p + k / 2.0 - margin) / (1.0 + k) && high == (p + k / 2.0 + margin) / (1.0 + k)
    ensures Ends(p, k, margin, low, high) && low >= 0.0
  {
    DivideBack(p + k / 2.0 - margin, 1.0 + k);
    DivideBack(p + k / 2.0 + margin, 1.0 + k);
    EndsRange(p, k, margin, low, high);
  }

  lemma SameBound(p: real, margin: real, half: real, whole: real, k: real)
    requires half == k / 2.0 && whole == k && k > 0.0
    ensures (p + half - margin) / (1.0 + whole) == (p + k / 2.0 - margin) / (1.0 + k)
  {
  }

  lemma HalfSpread(z: real, n: real)
    requires z > 0.0 && n > 0.0
    ensures z * z / (2.0 * n) == z * z / n / 2.0
  {
    DivideBack(z * z, n);
    Quotient(z * z, 2.0 * n, z * z / n / 2.0);
  }

  lemma BoundIsQuotient(p: real, n: real, z: real, margin: real, k: real)
    requires z > 0.0 && n > 0.0 && k == z * z / n && k > 0.0
    ensures ScoreBound(p, n, z, margin) == (p + k / 2.0 - margin) / (1.0 + k)
  {
    HalfSpread(z, n);
    SameBound(p, margin, z * z / (2.0 * n), z * z / n, k);
  }

  lemma BoundIsLowEnd(p: real, n: real, z: real, root: real) returns (high: real)
    requires 0.0 <= p <= 1.0 && z > 0.0 && n > 0.0 && root >= 0.0
    requires root * root == Radicand(p, n, z)
    ensures z * z / n > 0.0 && ScoreBound(p, n, z, z * root) >= 0.0
    ensures Ends(p, z * z / n, z * root, ScoreBound(p, n, z, z * root), high)
  {
    var k, margin := z * z / n, z * root;
    SpreadPositive(z, n);
    ProductNonnegative(z, root);
    MarginIsHalfWidth(z, n, p, root);
    var low := (p + k / 2.0 - margin) / (1.0 + k);
    high := (p + k / 2.0 + margin) / (1.0 + k);
    EndsFrom(p, k, margin, low, high);
    BoundIsQuotient(p, n, z, margin, k);
  }

  lemma MarginIsScaledRoot(m: Math, p: real, n: real, z: real) returns (root: real)
    requires IsSqrt(m.sqrt) && n > 0.0 && 0.0 <= p <= 1.0
    ensures root >= 0.0 && root * root == Radicand(p, n, z) && Margin(m, p, n, z) == z * root
  {
    RadicandNonnegative(z, n, p);
    root := m.sqrt(Radicand(p, n, z));
  }

  /** `wilson_lb` is the low end of the score interval; the `max(0, ...)` never acts. */
  lemma WilsonIsLowEnd(m: Math, successes: nat, attempts: nat, z: real) returns (margin: real, high: real)
    requires IsSqrt(m.sqrt) && Counted(successes, attempts, z)
    ensures Ends(Rate(successes, attempts), Spread(z, attempts), margin, WilsonLb(m, successes, attempts, z), high)
  {
    var n, p := attempts as real, Rate(successes, attempts);
    RateAndSpread(successes, attempts, z);
    var root := MarginIsScaledRoot(m, p, n, z);
    hide Radicand, ScoreBound, Margin;
    margin := Margin(m, p, n, z);
    high := BoundIsLowEnd(p, n, z, root);
  }

  lemma WilsonOnInterval(m: Math, successes: nat, attempts: nat, z: real)
    requires IsSqrt(m.sqrt) && Counted(successes, attempts, z)
    ensures
      var w, p, k := WilsonLb(m, successes, attempts, z), Rate(successes, attempts), Spread(z, attempts);
      && 0.0 <= w <= p <= 1.0
      && (successes > 0 ==> w < p)
      && OnInterval(p, k, w)
      && (forall x :: OnInterval(p, k, x) ==> w <= x)
  {
    var w, p, k := WilsonLb(m, successes, attempts, z), Rate(successes, attempts), Spread(z, attempts);
    RateAndSpread(successes, attempts, z);
    var margin, high := WilsonIsLowEnd(m, successes, attempts, z);
    hide WilsonLb;
    EndsRange(p, k, margin, w, high);
    EndsSolve(p, k, margin, w, high);
    assert p * attempts as real == successes as real;
    FactorSign(p, attempts as real);
    forall x | OnInterval(p, k, x) ensures w <= x {
      LowEndIsSmallest(p, k, margin, w, high, x);
    }
  }

  /** The equation of the score interval for `s` of `n`, cleared of its denominator. */
  predicate ScoreEquation(s: nat, n: nat, z: real, w: real)
    requires n > 0
  {
    var d := s as real / n as real - w;
    d * d * n as real == z * z * (w * (1.0 - w))
  }

  lemma EquationIff(s: nat, n: nat, z: real, w: real)
    requires n > 0 && z > 0.0
    ensures ScoreEquation(s, n, z, w) <==> OnInterval(Rate(s, n), Spread(z, n), w)
  {
    SpreadTimes(z, n);
    var k, zz, v, dd := Spread(z, n), z * z, w * (1.0 - w), (Rate(s, n) - w) * (Rate(s, n) - w);
    assert k * v * n as real == zz * v;
    assert (dd - k * v) * n as real == dd * n as real - zz * v;
    if dd * n as real == zz * v {
      ZeroFactor(dd - k * v, n as real);
    }
  }

  /**
   For 0 <= s <= n and n > 0 the bound is the smaller root w of
   (s/n - w)^2 * n = z^2 * w * (1 - w), and it lies in [0, s/n].
   */
  lemma WilsonIsSmallerRoot(m: Math, successes: nat, attempts: nat, z: real)
    requires IsSqrt(m.sqrt) && successes <= attempts && attempts > 0 && z > 0.0
    ensures
      var w := WilsonLb(m, successes, attempts, z);
      && 0.0 <= w <= successes as real / attempts as real <= 1.0
      && (successes > 0 ==> w < successes as real / attempts as real)
      && ScoreEquation(successes, attempts, z, w)
      && (forall x :: ScoreEquation(successes, attempts, z, x) ==> w <= x)
  {
    WilsonOnInterval(m, successes, attempts, z);
    forall x ensures ScoreEquation(successes, attempts, z, x) <==>
        OnInterval(Rate(successes, attempts), Spread(z, attempts), x) {
      EquationIff(successes, attempts, z, x);
    }
    hide WilsonLb, OnInterval, ScoreEquation;
  }

  lemma SquareOfSum(a: real, d: real, sum: real)
    requires a >= 0.0 && d > 0.0 && sum == a + d
    ensures sum * sum > a * a
  {
    ProductNonnegative(a, d);
    ProductPositive(d, d, d * d);
    assert sum * sum == a * a + 2.0 * (a * d) + d * d;
  }

  lemma FartherFromLarger(w: real, p: real, q: real)
    requires w <= p < q
    ensures (q - w) * (q - w) > (p - w) * (p - w)
  {
    SquareOfSum(p - w, q - p, q - w);
  }

  /** One more success at the same number of attempts strictly raises the bound. */
  lemma WilsonIncreasesInSuccesses(m: Math, s: nat, t: nat, attempts: nat, z: real)
    requires IsSqrt(m.sqrt) && s < t && Counted(t, attempts, z)
    ensures WilsonLb(m, s, attempts, z) < WilsonLb(m, t, attempts, z)
  {
    var k, p, q := Spread(z, attempts), Rate(s, attempts), Rate(t, attempts);
    var w := WilsonLb(m, s, attempts, z);
    RateAndSpread(t, attempts, z);
    RateGrows(s, t, attempts);
    WilsonOnInterval(m, s, attempts, z);
    FartherFromLarger(w, p, q);
    var margin, high := WilsonIsLowEnd(m, t, attempts, z);
    BelowLowEnd(q, k, margin, WilsonLb(m, t, attempts, z), high, w);
  }

  lemma RateGrows(s: nat, t: nat, attempts: nat)
    requires s < t && attempts > 0
    ensures Rate(s, attempts) < Rate(t, attempts)
  {
    var n, p, q := attempts as real, Rate(s, attempts), Rate(t, attempts);
    assert p * n == s as real && q * n == t as real;
    assert (q - p) * n == (t - s) as real;
    FactorSign(q - p, n);
  }

  lemma FartherThan(p: real, w: real, k: real, l: real)
    requires OnInterval(p, k, w) && l * (w * (1.0 - w)) <= k * (w * (1.0 - w))
    ensures (p - w) * (p - w) >= l * (w * (1.0 - w))
  {
  }

  lemma TighterInterval(p: real, w: real, k: real, l: real, margin: real, low: real, high: real)
    requires 0.0 < l <= k && OnInterval(p, k, w) && 0.0 <= w < p <= 1.0 && Ends(p, l, margin, low, high)
    ensures w <= low
  {
    hide OnInterval, Ends;
    ProductNonnegative(w, 1.0 - w);
    ProductOrder(l, k, w * (1.0 - w));
    FartherThan(p, w, k, l);
    NotAboveLowEnd(p, l, margin, low, high, w);
  }

  /** At the same success rate, more attempts never lower the bound. */
  lemma WilsonMonotoneInAttempts(m: Math, s: nat, n: nat, t: nat, o: nat, z: real)
    requires IsSqrt(m.sqrt) && Counted(s, n, z) && Counted(t, o, z)
    requires n <= o && Rate(s, n) == Rate(t, o)
    ensures WilsonLb(m, s, n, z) <= WilsonLb(m, t, o, z)
  {
    var p, w := Rate(s, n), WilsonLb(m, s, n, z);
    WilsonOnInterval(m, s, n, z);
    WilsonOnInterval(m, t, o, z);
    if s > 0 {
      RateAndSpread(s, n, z);
      RateAndSpread(t, o, z);
      SpreadShrinks(z, n, o);
      var margin, high := WilsonIsLowEnd(m, t, o, z);
      TighterInterval(p, w, Spread(z, n), Spread(z, o), margin, WilsonLb(m, t, o, z), high);
    } else {
      assert p == 0.0;
    }
  }

  lemma SpreadShrinks(z: real, n: nat, o: nat)
    requires 0 < n <= o && z > 0.0
    ensures Spread(z, o) <= Spread(z, n)
  {
    var a, b := Spread(z, n), Spread(z, o);
    assert a * n as real == z * z && b * o as real == z * z;
    assert b * o as real == b * n as real + b * (o - n) as real;
    RateAndSpread(0, o, z);
    ProductNonnegative(b, (o - n) as real);
    var d, f := a - b, n as real;
    assert d * f >= 0.0;
    FactorSign(d, f);
  }

  lemma PerfectRoot(n: real, k: real, zz: real, w: real)
    requires n > 0.0 && k * n == zz && zz > 0.0 && w < 1.0 && OnInterval(1.0, k, w)
    ensures w == n / (n + zz)
  {
    assert (1.0 - w) * (1.0 - w - k * w) == 0.0;
    ZeroFactor(1.0 - w, 1.0 - w - k * w);
    assert w * (n + zz) == n * (w + k * w);
    Quotient(n, n + zz, w);
  }

  /** A perfect record of n attempts earns n/(n + z^2); one without a success, or without an attempt, earns 0. */
  lemma WilsonAtTheEnds(m: Math, attempts: nat, z: real)
    requires IsSqrt(m.sqrt) && attempts > 0 && z > 0.0
    ensures WilsonLb(m, attempts, attempts, z) == attempts as real / (attempts as real + z * z)
    ensures WilsonLb(m, 0, attempts, z) == 0.0 == WilsonLb(m, 0, 0, z)
  {
    WilsonOnInterval(m, 0, attempts, z);
    WilsonOnInterval(m, attempts, attempts, z);
    Quotient(attempts as real, attempts as real, 1.0);
    assert Rate(0, attempts) == 0.0 && Rate(attempts, attempts) == 1.0;
    SpreadTimes(z, attempts);
    PerfectRoot(attempts as real, Spread(z, attempts), z * z, WilsonLb(m, attempts, attempts, z));
  }

  /** The documented example: 47 of 50 outranks 1 of 1. */
  lemma LongRecordOutranksLuck(m: Math)
    requires IsSqrt(m.sqrt)
    ensures WilsonLb(m, 1, 1, 1.96) < 0.5 < WilsonLb(m, 47, 50, 1.96)
  {
    WilsonAtTheEnds(m, 1, Z);
    assert Rate(47, 50) == 0.94;
    RateAndSpread(47, 50, Z);
    var margin, high := WilsonIsLowEnd(m, 47, 50, Z);
    BelowLowEnd(0.94, Spread(Z, 50), margin, WilsonLb(m, 47, 50, Z), high, 0.5);
  }

  lemma ExpZero(m: Math)
    requires IsExp(m.exp)
    ensures m.exp(0.0) == 1.0
  {
    var e := m.exp(0.0);
    assert AddsExponents(m.exp, 0.0, 0.0);
    assert e * (e - 1.0) == 0.0;
    ZeroFactor(e, e - 1.0);
  }

  lemma ExpMonotone(m: Math, x: real, y: real)
    requires IsExp(m.exp) && x <= y
    ensures 0.0 < m.exp(x) <= m.exp(y)
  {
  }

  lemma WilsonNonnegative(m: Math, successes: nat, attempts: nat, z: real)
    ensures WilsonLb(m, successes, attempts, z) >= 0.0
  {
  }

  lemma ScaledOrder(w: real, a: real, b: real)
    requires w >= 0.0 && 0.0 < b <= a
    ensures 0.0 <= w * b <= w * a
  {
    ProductOrder(b, a, w);
  }

  /** Ageing never raises the decayed confidence of unchanged statistics. */
  lemma DecayIsMonotone(m: Math, successes: nat, attempts: nat, young: real, aged: real)
    requires Faithful(m) && young <= aged
    ensures 0.0 <= DecayedConfidence(m, successes, attempts, aged) <= DecayedConfidence(m, successes, attempts, young)
  {
    WilsonNonnegative(m, successes, attempts, Z);
    hide WilsonLb;
    ExpMonotone(m, -aged / 90.0, -young / 90.0);
    ScaledOrder(WilsonLb(m, successes, attempts, Z), m.exp(-young / 90.0), m.exp(-aged / 90.0));
  }
}
