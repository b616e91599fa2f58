/** The score of a sample window (Calculate in accountquality/statistics.go), over the reals and without rounding error. */
module WilsonBound {
  import opened Common
  import opened Reals

  // ---- The score ----

  /** The normal quantile for 95 % confidence. The facts below hold for any positive one. */
  function Z(): (z: real)
    ensures z > 0.0
  {
    1.959963984540054
  }

  /** math.Round of a number that is not negative. */
  function Rounded(x: real): int {
    (x + 0.5).Floor
  }

  function Share(passed: nat, failed: nat): real
    requires passed + failed > 0
  {
    passed as real / (passed + failed) as real
  }

  /** The lower end of the Wilson interval for a share of n samples; s is the root of the radicand. */
  function Formula(share: real, n: real, z: real, s: real): real
    requires n > 0.0 && z > 0.0
  {
    (share + z * z / (2.0 * n) - z * s) / (1.0 + z * z / n)
  }

  function Squared(z: real): (w: real)
    requires z > 0.0
    ensures w > 0.0 && w == z * z
  {
    SignOf(z, z);
    z * z
  }

  function FourSquares(n: real): (d: real)
    requires n > 0.0
    ensures d > 0.0
  {
    SignOf(n, 4.0 * n);
    4.0 * n * n
  }

  function Radicand(share: real, n: real, z: real): real
    requires n > 0.0
  {
    share * (1.0 - share) / n + z * z / FourSquares(n)
  }

  /** The lower end of the interval for a quantile. */
  function LowerBound(share: real, n: real, z: real, sqrt: real -> real): real
    requires n > 0.0 && z > 0.0
  {
    Formula(share, n, z, sqrt(Radicand(share, n, z)))
  }

  function Wilson(passed: nat, failed: nat, z: real, sqrt: real -> real): real
    requires passed + failed > 0 && z > 0.0
  {
    LowerBound(Share(passed, failed), (passed + failed) as real, z, sqrt)
  }

  function Value(passed: nat, failed: nat, confidence: bool, z: real, sqrt: real -> real): real
    requires passed + failed > 0 && z > 0.0
  {
    if confidence then Wilson(passed, failed, z, sqrt) else Share(passed, failed)
  }

  function ScoreOf(value: real): real {
    Rounded((if value < 0.0 then 0.0 else value) * 1000.0) as real / 10.0
  }

  // ---- The bound as the lesser root of a quadratic ----

  /** Zero at both ends of the interval: (p - ny)^2 = z^2 n y (1 - y); w stands for z^2. */
  function Gap(p: real, n: real, w: real, y: real): real {
    (p - n * y) * (p - n * y) - w * n * y * (1.0 - y)
  }

  /** The ends of the interval, x below and u above; t is z n times the root. */
  ghost predicate Ends(p: real, n: real, w: real, t: real, x: real, u: real) {
    && n > 0.0 && w > 0.0 && 0.0 <= p <= n && t >= 0.0
    && n * (t * t) == w * (p * (n - p)) + n * w * w / 4.0
    && x * (n + w) == p + w / 2.0 - t
    && u * (n + w) == p + w / 2.0 + t
  }

  lemma ScaledGap(p: real, n: real, w: real, y: real)
    ensures n * (((n + w) * y - (p + w / 2.0)) * ((n + w) * y - (p + w / 2.0))) - (w * (p * (n - p)) + n * w * w / 4.0) ==
      (n + w) * Gap(p, n, w, y)
  {
  }

  lemma ScaledFactors(d: real, x: real, u: real, y: real)
    ensures d * d * ((y - x) * (y - u)) == (d * y - x * d) * (d * y - u * d)
  {
  }

  lemma ProductOfConjugates(e: real, t: real)
    ensures (e + t) * (e - t) == e * e - t * t
  {
  }

  lemma FactorsFrom(n: real, d: real, product: real, e: real, t: real, gap: real)
    requires d > 0.0 && d * d * product == e * e - t * t && n * (e * e) - n * (t * t) == d * gap
    ensures n * d * product == gap
  {
    Multiplied(n, d * d * product, e * e - t * t);
    Cancel(d, n * d * product, gap);
  }

  function Width(n: real, w: real): real {
    n + w
  }

  function Offset(p: real, n: real, w: real, y: real): real {
    Width(n, w) * y - (p + w / 2.0)
  }

  lemma GapAtEnds(p: real, n: real, w: real, t: real, x: real, u: real, y: real)
    requires Ends(p, n, w, t, x, u)
    ensures n * (Offset(p, n, w, y) * Offset(p, n, w, y)) - n * (t * t) == Width(n, w) * Gap(p, n, w, y)
  {
    ScaledGap(p, n, w, y);
    hide Gap;
  }

  lemma EndsScaled(p: real, n: real, w: real, t: real, x: real, u: real)
    requires Ends(p, n, w, t, x, u)
    ensures x * Width(n, w) == p + w / 2.0 - t && u * Width(n, w) == p + w / 2.0 + t
    ensures Width(n, w) > 0.0 && Lead(n, w) > 0.0 && Lead(n, w) == n * Width(n, w)
  {
  }

  lemma ProductAtEnds(c: real, d: real, e: real, t: real, x: real, u: real, y: real)
    requires x * d == c - t && u * d == c + t && e == d * y - c
    ensures d * d * ((y - x) * (y - u)) == e * e - t * t
  {
    ScaledFactors(d, x, u, y);
    assert d * y - x * d == e + t && d * y - u * d == e - t;
    ProductOfConjugates(e, t);
  }

  function Product(y: real, x: real, u: real): real {
    (y - x) * (y - u)
  }

  function Lead(n: real, w: real): real {
    n * (n + w)
  }

  /** The gap is a quadratic in y, open upwards, with the two ends as its roots. */
  lemma GapFactors(p: real, n: real, w: real, t: real, x: real, u: real, y: real)
    requires Ends(p, n, w, t, x, u)
    ensures Lead(n, w) * Product(y, x, u) == Gap(p, n, w, y)
    ensures Lead(n, w) > 0.0
  {
    hide Gap, Ends, Width, Lead, Product;
    GapAtEnds(p, n, w, t, x, u, y);
    EndsScaled(p, n, w, t, x, u);
    FactorsAbstractly(n, Width(n, w), p + w / 2.0, Offset(p, n, w, y), t, x, u, y, Gap(p, n, w, y));
  }

  lemma FactorsAbstractly(n: real, d: real, c: real, e: real, t: real, x: real, u: real, y: real, gap: real)
    requires x * d == c - t && u * d == c + t && e == d * y - c
    requires d > 0.0 && n * (e * e) - n * (t * t) == d * gap
    ensures n * d * Product(y, x, u) == gap
  {
    ProductAtEnds(c, d, e, t, x, u, y);
    FactorsFrom(n, d, (y - x) * (y - u), e, t, gap);
  }

  lemma SquaresCompare(a: real, b: real)
    requires a >= 0.0 && b >= 0.0 && a * a <= b * b
    ensures a <= b
  {
    ProductOfConjugates(a, b);
    if a + b > 0.0 { SignOf(a + b, a - b); }
  }

  lemma Between(v: real, x: real, u: real)
    requires x <= u && Product(v, x, u) <= 0.0
    ensures x <= v <= u
  {
    if v < x { SignOf(x - v, u - v); }
    if v > u { SignOf(v - u, v - x); }
  }

  lemma CentreSquared(p: real, n: real, w: real, c: real, square: real)
    requires c == p + w / 2.0 && n * square == w * (p * (n - p)) + n * w * w / 4.0
    ensures n * (c * c - square) == p * p * (n + w)
  {
    assert n * (c * c) == n * p * p + n * p * w + n * w * w / 4.0;
  }

  /** The half-width of the scaled interval does not exceed its centre. */
  lemma RootBelowCentre(p: real, n: real, w: real, t: real, x: real, u: real)
    requires Ends(p, n, w, t, x, u)
    ensures t <= p + w / 2.0
  {
    var c := p + w / 2.0;
    CentreSquared(p, n, w, c, t * t);
    if p > 0.0 { SignOf(p, p); }
    SignOf(n + w, p * p);
    SignOf(n, c * c - t * t);
    SquaresCompare(t, c);
  }

  /** The lower end is not negative and below 1. */
  lemma LowerEnd(p: real, n: real, w: real, t: real, x: real, u: real)
    requires Ends(p, n, w, t, x, u)
    ensures 0.0 <= x < 1.0 && x <= u
  {
    RootBelowCentre(p, n, w, t, x, u);
    EndsScaled(p, n, w, t, x, u);
    EndsFacts(p, n, w, t, x, u);
    hide Ends;
    SignsOfEnds(n + w, p + w / 2.0, t, x, u);
  }

  lemma SignsOfEnds(d: real, c: real, t: real, x: real, u: real)
    requires d > 0.0 && 0.0 <= t <= c < d && x * d == c - t && u * d == c + t
    ensures 0.0 <= x < 1.0 && x <= u
  {
    SignOf(d, x);
    SignOf(d, u - x);
    SignOf(d, x - 1.0);
  }

  lemma GapAtShare(n: real, w: real, v: real)
    requires n > 0.0 && w > 0.0 && 0.0 <= v <= 1.0
    ensures Gap(n * v, n, w, v) <= 0.0
  {
    var q := v * (1.0 - v);
    if v > 0.0 { SignOf(v, 1.0 - v); }
    assert Gap(n * v, n, w, v) == -(w * n * q);
    SignOf(w * n, q);
  }

  lemma EndsFacts(p: real, n: real, w: real, t: real, x: real, u: real)
    requires Ends(p, n, w, t, x, u)
    ensures n > 0.0 && w > 0.0 && 0.0 <= p <= n && t >= 0.0
  {
  }

  /** The share lies in the interval. */
  lemma ShareInside(p: real, n: real, w: real, t: real, x: real, u: real)
    requires Ends(p, n, w, t, x, u)
    ensures n * x <= p <= n * u
  {
    hide Ends, Gap, Product, Lead;
    EndsFacts(p, n, w, t, x, u);
    var v := p / n;
    assert n * v == p && 0.0 <= v <= 1.0;
    LowerEnd(p, n, w, t, x, u);
    GapFactors(p, n, w, t, x, u, v);
    GapAtShare(n, w, v);
    SignOf(Lead(n, w), Product(v, x, u));
    Between(v, x, u);
    SignOf(n, v - x);
    SignOf(n, u - v);
  }

  /** The gap closes at the lower end. */
  lemma GapCloses(p: real, n: real, w: real, t: real, x: real, u: real)
    requires Ends(p, n, w, t, x, u)
    ensures Gap(p, n, w, x) == 0.0
  {
    hide Ends, Gap;
    GapFactors(p, n, w, t, x, u, x);
  }

  /** Below the upper end, a gap that is not negative puts y at or below the lower end. */
  lemma BelowLowerEnd(p: real, n: real, w: real, t: real, x: real, u: real, y: real)
    requires Ends(p, n, w, t, x, u) && y < u && Gap(p, n, w, y) >= 0.0
    ensures y <= x
  {
    hide Ends, Gap, Lead;
    GapFactors(p, n, w, t, x, u, y);
    SignOf(Lead(n, w), Product(y, x, u));
    SignOf(u - y, x - y);
  }

  lemma GapAfterPass(p: real, n: real, w: real, y: real)
    ensures Gap(p + 1.0, n + 1.0, w, y) == Gap(p, n, w, y) + (1.0 - y) * (2.0 * (p - n * y) + (1.0 - y) - w * y)
  {
  }

  lemma GapAfterFailure(p: real, n: real, w: real, y: real)
    ensures Gap(p, n, w, y) == Gap(p, n + 1.0, w, y) + y * (2.0 * (p - (n + 1.0) * y) + y + w * (1.0 - y))
  {
  }

  /** One more pass does not lower the lower end. */
  lemma PassRaises(p: real, n: real, w: real, t: real, x: real, u: real, t': real, x': real, u': real)
    requires Ends(p, n, w, t, x, u) && Ends(p + 1.0, n + 1.0, w, t', x', u')
    ensures x <= x'
  {
    hide Ends, Gap;
    EndsFacts(p, n, w, t, x, u);
    LowerEnd(p, n, w, t, x, u);
    ShareInside(p, n, w, t, x, u);
    ShareInside(p + 1.0, n + 1.0, w, t', x', u');
    GapCloses(p, n, w, t, x, u);
    GapStaysOpen(p, n, w, x);
    StrictlyBelow(n + 1.0, x, u', p + 1.0);
    BelowLowerEnd(p + 1.0, n + 1.0, w, t', x', u', x);
  }

  lemma StrictlyBelow(n: real, x: real, u: real, p: real)
    requires n > 0.0 && n * x < p <= n * u
    ensures x < u
  {
    if u <= x { SignOf(n, x - u); }
  }

  lemma GapStaysOpen(p: real, n: real, w: real, x: real)
    requires n > 0.0 && 0.0 <= x < 1.0 && n * x <= p <= n && Gap(p, n, w, x) == 0.0
    ensures Gap(p + 1.0, n + 1.0, w, x) >= 0.0 && (n + 1.0) * x < p + 1.0
  {
    var a, b := p - n * x, 1.0 - x;
    assert a * a == n * (w * x) * b;
    SlopeFits(a, b, n, w * x);
    GapAfterPass(p, n, w, x);
    SignOf(b, 2.0 * a + b - w * x);
  }

  /** One more failure does not raise it. */
  lemma FailureLowers(p: real, n: real, w: real, t: real, x: real, u: real, t': real, x': real, u': real)
    requires Ends(p, n, w, t, x, u) && Ends(p, n + 1.0, w, t', x', u')
    ensures x' <= x
  {
    hide Ends, Gap;
    EndsFacts(p, n, w, t, x, u);
    LowerEnd(p, n + 1.0, w, t', x', u');
    ShareInside(p, n + 1.0, w, t', x', u');
    GapCloses(p, n + 1.0, w, t', x', u');
    LowerEnd(p, n, w, t, x, u);
    ShareInside(p, n, w, t, x, u);
    if x' > 0.0 {
      GapOpens(p, n, w, x');
      StrictlyBelow(n, x', u, p);
      BelowLowerEnd(p, n, w, t, x, u, x');
    }
  }

  lemma GapOpens(p: real, n: real, w: real, x: real)
    requires w > 0.0 && 0.0 < x < 1.0 && (n + 1.0) * x <= p && Gap(p, n + 1.0, w, x) == 0.0
    ensures Gap(p, n, w, x) >= 0.0 && n * x < p
  {
    GapAfterFailure(p, n, w, x);
    SignOf(w, 1.0 - x);
    SignOf(x, 2.0 * (p - (n + 1.0) * x) + x + w * (1.0 - x));
  }

  /** From a^2 = n q b and a <= n b follows q <= a. */
  lemma SlopeFits(a: real, b: real, n: real, q: real)
    requires n > 0.0 && b > 0.0 && 0.0 <= a <= n * b && a * a == n * q * b
    ensures q <= a
  {
    assert a * a <= n * b * a;
    assert (n * b) * (a - q) >= 0.0;
    SignOf(n * b, a - q);
  }

  // ---- The score ----

  /** The formula, cleared of its fractions. */
  lemma FormulaCleared(p: real, n: real, z: real, v: real, s: real, x: real)
    requires n > 0.0 && z > 0.0 && v * n == p && x == Formula(v, n, z, s)
    ensures x * (n + Squared(z)) == p + Squared(z) / 2.0 - z * (n * s)
  {
    var k := z * z / n;
    Divided(z * z, n, k);
    assert k >= 0.0 by { SignOf(n, k); }
    assert z * z / (2.0 * n) == k / 2.0;
    var top := v + k / 2.0 - z * s;
    Divided(top, 1.0 + k, x);
    Multiplied(n, x * (1.0 + k), top);
    assert n * (x * (1.0 + k)) == x * (n + k * n);
    assert n * top == v * n + (k * n) / 2.0 - z * (n * s);
  }

  lemma RadicandCleared(p: real, n: real, z: real, v: real, s: real)
    requires n > 0.0 && v * n == p && s * s == Radicand(v, n, z)
    ensures n * ((n * s) * (n * s)) == p * (n - p) + n * (z * z) / 4.0
  {
    var a, k := v * (1.0 - v) / n, z * z / FourSquares(n);
    Divided(v * (1.0 - v), n, a);
    Divided(z * z, FourSquares(n), k);
    Multiplied(n * n * n, s * s, a + k);
    assert n * ((n * s) * (n * s)) == n * n * n * (s * s);
    assert n * n * n * (a + k) == n * n * (a * n) + n * (k * FourSquares(n)) / 4.0;
    assert n * n * (v * (1.0 - v)) == (v * n) * (n - v * n);
  }

  lemma WithWeight(p: real, n: real, z: real, r: real, w: real, t: real)
    requires n * (r * r) == p * (n - p) + n * (z * z) / 4.0 && w == z * z && t == z * r
    ensures n * (t * t) == w * (p * (n - p)) + n * w * w / 4.0
  {
    Multiplied(w, n * (r * r), p * (n - p) + n * (z * z) / 4.0);
    assert t * t == w * (r * r);
    assert n * (t * t) == w * (n * (r * r));
  }

  lemma AreEnds(p: real, n: real, w: real, t: real, x: real) returns (u: real)
    requires n > 0.0 && w > 0.0 && 0.0 <= p <= n && t >= 0.0
    requires n * (t * t) == w * (p * (n - p)) + n * w * w / 4.0 && x * (n + w) == p + w / 2.0 - t
    ensures Ends(p, n, w, t, x, u)
  {
    u := (p + w / 2.0 + t) / (n + w);
    Divided(p + w / 2.0 + t, n + w, u);
  }

  /** Wilson is the lower end of an interval. */
  lemma WilsonIsLowerEnd(passed: nat, failed: nat, z: real, sqrt: real -> real) returns (t: real, u: real)
    requires passed + failed > 0 && IsRoot(sqrt) && z > 0.0
    ensures Ends(passed as real, (passed + failed) as real, Squared(z), t, Wilson(passed, failed, z, sqrt), u)
  {
    hide Formula, Radicand;
    var p, n, v := passed as real, (passed + failed) as real, Share(passed, failed);
    ShareIsShare(p, n, v);
    RadicandHolds(v, n, z);
    var s := sqrt(Radicand(v, n, z));
    assert s >= 0.0 && s * s == Radicand(v, n, z);
    hide IsRoot;
    hide Ends;
    t, u := FormulaEnds(p, n, z, v, s, Wilson(passed, failed, z, sqrt));
  }

  lemma ShareIsShare(p: real, n: real, v: real)
    requires n > 0.0 && 0.0 <= p <= n && v == p / n
    ensures v * n == p && 0.0 <= v <= 1.0
  {
  }

  lemma RadicandHolds(v: real, n: real, z: real)
    requires n > 0.0 && 0.0 <= v <= 1.0
    ensures Radicand(v, n, z) >= 0.0
  {
    hide FourSquares;
    if v > 0.0 { SignOf(v, 1.0 - v); }
    Quotient(v * (1.0 - v), n);
    Quotient(z * z, FourSquares(n));
  }

  lemma FormulaEnds(p: real, n: real, z: real, v: real, s: real, x: real) returns (t: real, u: real)
    requires n > 0.0 && z > 0.0 && s >= 0.0 && v * n == p && 0.0 <= p <= n
    requires s * s == Radicand(v, n, z) && x == Formula(v, n, z, s)
    ensures Ends(p, n, Squared(z), t, x, u)
  {
    hide Ends, Formula, Radicand;
    var w, r := Squared(z), n * s;
    FormulaCleared(p, n, z, v, s, x);
    RadicandCleared(p, n, z, v, s);
    SignOf(n, s);
    SignOf(z, r);
    t := z * r;
    WithWeight(p, n, z, r, w, t);
    u := AreEnds(p, n, w, t, x);
  }

  /** The unrounded bound lies between 0 and the share of passed samples. */
  lemma WilsonInRange(passed: nat, failed: nat, z: real, sqrt: real -> real)
    requires passed + failed > 0 && IsRoot(sqrt) && z > 0.0
    ensures 0.0 <= Wilson(passed, failed, z, sqrt) <= Share(passed, failed) <= 1.0
  {
    hide Ends, Wilson, IsRoot;
    var p, n, x := passed as real, (passed + failed) as real, Wilson(passed, failed, z, sqrt);
    var t, u := WilsonIsLowerEnd(passed, failed, z, sqrt);
    LowerEnd(p, n, Squared(z), t, x, u);
    ShareInside(p, n, Squared(z), t, x, u);
    ShareIsShare(p, n, Share(passed, failed));
    SignOf(n, Share(passed, failed) - x);
  }

  /** One more passed sample never lowers the bound. */
  lemma PassNeverLowers(passed: nat, failed: nat, z: real, sqrt: real -> real)
    requires passed + failed > 0 && IsRoot(sqrt) && z > 0.0
    ensures Wilson(passed, failed, z, sqrt) <= Wilson(passed + 1, failed, z, sqrt)
  {
    hide Ends, Wilson, IsRoot;
    var t, u := WilsonIsLowerEnd(passed, failed, z, sqrt);
    var t', u' := WilsonIsLowerEnd(passed + 1, failed, z, sqrt);
    PassRaises(passed as real, (passed + failed) as real, Squared(z), t, Wilson(passed, failed, z, sqrt), u,
               t', Wilson(passed + 1, failed, z, sqrt), u');
  }

  /** One more failed sample never raises it. */
  lemma FailureNeverRaises(passed: nat, failed: nat, z: real, sqrt: real -> real)
    requires passed + failed > 0 && IsRoot(sqrt) && z > 0.0
    ensures Wilson(passed, failed + 1, z, sqrt) <= Wilson(passed, failed, z, sqrt)
  {
    hide Ends, Wilson, IsRoot;
    var t, u := WilsonIsLowerEnd(passed, failed, z, sqrt);
    var t', u' := WilsonIsLowerEnd(passed, failed + 1, z, sqrt);
    FailureLowers(passed as real, (passed + failed) as real, Squared(z), t, Wilson(passed, failed, z, sqrt), u,
                  t', Wilson(passed, failed + 1, z, sqrt), u');
  }

  /** Rounding to a tenth of a percent keeps the order, so reported scores lie in 0..100 and move the same way. */
  lemma ScoreKeepsOrder(a: real, b: real)
    requires a <= b <= 1.0
    ensures 0.0 <= ScoreOf(a) <= ScoreOf(b) <= 100.0
  {
  }

  /** Reported scores lie in 0..100; a pass never lowers the reported score, a failure never raises it. */
  lemma ReportedScores(passed: nat, failed: nat, confidence: bool, z: real, sqrt: real -> real)
    requires passed + failed > 0 && IsRoot(sqrt) && z > 0.0
    ensures 0.0 <= ScoreOf(Value(passed, failed, confidence, z, sqrt)) <= 100.0
    ensures ScoreOf(Value(passed, failed, confidence, z, sqrt)) <= ScoreOf(Value(passed + 1, failed, confidence, z, sqrt))
    ensures ScoreOf(Value(passed, failed + 1, confidence, z, sqrt)) <= ScoreOf(Value(passed, failed, confidence, z, sqrt))
  {
    hide Wilson, ScoreOf;
    if confidence {
      WilsonInRange(passed, failed, z, sqrt);
      WilsonInRange(passed + 1, failed, z, sqrt);
      PassNeverLowers(passed, failed, z, sqrt);
      FailureNeverRaises(passed, failed, z, sqrt);
    } else {
      SharesCompare(passed as real, (passed + failed) as real);
    }
    ScoreKeepsOrder(Value(passed, failed, confidence, z, sqrt), Value(passed + 1, failed, confidence, z, sqrt));
    ScoreKeepsOrder(Value(passed, failed + 1, confidence, z, sqrt), Value(passed, failed, confidence, z, sqrt));
  }

  lemma SharesCompare(p: real, n: real)
    requires 0.0 <= p <= n && n > 0.0
    ensures p / (n + 1.0) <= p / n <= (p + 1.0) / (n + 1.0) <= 1.0
  {
    var a, b, c := p / (n + 1.0), p / n, (p + 1.0) / (n + 1.0);
    Divided(p, n + 1.0, a);
    Divided(p, n, b);
    Divided(p + 1.0, n + 1.0, c);
    SignOf(n + 1.0, a);
    assert n * (b - a) == a;
    SignOf(n, b - a);
    assert (n + 1.0) * (c - b) == 1.0 - b;
    SignOf(n, 1.0 - b);
    SignOf(n + 1.0, c - b);
    SignOf(n + 1.0, 1.0 - c);
  }
}
