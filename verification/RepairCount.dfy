/** How many repair symbols a transmission carries, over exact reals.

    The margin test mean - z * sd >= target has its square root removed by squaring, and the
    one-symbol case, a quotient of logarithms rounded up, is the least exponent it denotes. */
module RepairCount {

  const FAILURE_TARGET: real := 0.02
  const Z_SQUARED: real := 3.24  // zScore is 1.8

  function Epsilon(k: nat): real {
    if k == 1 then 0.0 else if k == 2 then 0.9 else if k == 3 then 2.0 else if k == 4 then 2.5 else 3.4
  }

  // What is left of the mean number of arrivals after the target.
  function Gap(n: nat, k: nat, p: real): real {
    n as real * (1.0 - p) - (k as real + Epsilon(k))
  }

  function Variance(n: nat, p: real): real {
    n as real * p * (1.0 - p)
  }

  predicate Covers(gap: real, variance: real) {
    gap >= 0.0 && gap * gap >= Z_SQUARED * variance
  }

  predicate Margin(n: nat, k: nat, p: real) {
    Covers(Gap(n, k, p), Variance(n, p))
  }

  function MaxN(k: nat): nat {
    k * 12 + 16
  }

  // The least N from n up that keeps the margin, or the cap.
  function Search(k: nat, p: real, n: nat): (r: nat)
    requires n <= MaxN(k)
    ensures n <= r <= MaxN(k)
    ensures forall m :: n <= m < r ==> !Margin(m, k, p)
    ensures r < MaxN(k) ==> Margin(r, k, p)
    decreases MaxN(k) - n
  {
    if n == MaxN(k) || Margin(n, k, p) then n else Search(k, p, n + 1)
  }

  function Power(p: real, n: nat): real {
    if n == 0 then 1.0 else Power(p, n - 1) * p
  }

  // The least number of copies, from n up, that are all lost with probability at most the target.
  function Copies(p: real, n: nat): (r: nat)
    requires n <= 38
    ensures n <= r <= 38
    ensures forall m :: n <= m < r ==> Power(p, m) > FAILURE_TARGET
    ensures r < 38 ==> Power(p, r) <= FAILURE_TARGET
    decreases 38 - n
  {
    if n == 38 || Power(p, n) <= FAILURE_TARGET then n else Copies(p, n + 1)
  }

  function Clamped(lossRate: real): real {
    if lossRate > 0.9 then 0.9 else lossRate
  }

  function Count(k: nat, lossRate: real): nat
    requires k >= 1
  {
    var p := Clamped(lossRate);
    if lossRate <= 0.0 then 1
    else if k == 1 then (if Copies(p, 1) < 2 then 2 else Copies(p, 1)) - 1
    else Search(k, p, k + 1) - k
  }

  method ComputeCount(k: nat, lossRate: real) returns (r: nat)
    requires k >= 1
    ensures r == Count(k, lossRate)
  {
    if lossRate <= 0.0 {
      return 1;
    }
    var p := if lossRate > 0.9 then 0.9 else lossRate;
    if k == 1 {
      var copies := Copies(p, 1);
      if copies < 2 {
        copies := 2;
      }
      return copies - 1;
    }
    var n := k + 1;
    while n <= MaxN(k)
      invariant k + 1 <= n <= MaxN(k) + 1
      invariant forall m :: k + 1 <= m < n ==> !Margin(m, k, p)
    {
      if Margin(n, k, p) {
        SearchIsLeast(k, p, n);
        return n - k;
      }
      n := n + 1;
    }
    SearchIsLeast(k, p, MaxN(k));
    return MaxN(k) - k;
  }

  lemma SearchIsLeast(k: nat, p: real, r: nat)
    requires k + 1 <= r <= MaxN(k) && (r == MaxN(k) || Margin(r, k, p))
    requires forall m :: k + 1 <= m < r ==> !Margin(m, k, p)
    ensures Search(k, p, k + 1) == r
  {
    assert Search(k, p, k + 1) >= k + 1;
  }

  // ---- how the pieces move with the loss rate ---------------------------------------------

  lemma {:induction false} PowerRises(p: real, q: real, n: nat)
    requires 0.0 <= p <= q
    ensures 0.0 <= Power(p, n) <= Power(q, n)
  {
    if n > 0 {
      PowerRises(p, q, n - 1);
      Products(Power(p, n - 1), Power(q, n - 1), p, q);
    }
  }

  lemma Products(a: real, b: real, c: real, d: real)
    requires 0.0 <= a <= b && 0.0 <= c <= d
    ensures 0.0 <= a * c <= b * d
  {
    assert a * c <= b * c <= b * d;
  }

  lemma {:induction false} PowerAdds(p: real, m: nat, n: nat)
    ensures Power(p, m + n) == Power(p, m) * Power(p, n)
  {
    if n > 0 {
      PowerAdds(p, m, n - 1);
      assert Power(p, m + n) == Power(p, m + (n - 1)) * p;
    }
  }

  // Even at the clamp, thirty-eight copies are enough.
  lemma CopiesAlwaysFound(p: real)
    requires 0.0 < p <= 0.9
    ensures Power(p, 38) <= FAILURE_TARGET
  {
    PowerRises(p, 0.9, 38);
    var q: real := 0.9;
    assert Power(q, 1) == 0.9;
    assert Power(q, 2) == Power(q, 1) * q == 0.81;
    PowerAdds(q, 2, 2);
    assert Power(q, 4) == 0.6561;
    PowerAdds(q, 4, 2);
    PowerAdds(q, 4, 4);
    assert Power(q, 6) == 0.531441 && Power(q, 8) < 0.4305;
    PowerAdds(q, 8, 8);
    PowerRises(q, q, 8);
    Products(Power(q, 8), 0.4305, Power(q, 8), 0.4305);
    assert 0.0 <= Power(q, 16) <= 0.1854;
    PowerAdds(q, 16, 16);
    Products(Power(q, 16), 0.1854, Power(q, 16), 0.1854);
    assert 0.0 <= Power(q, 32) <= 0.0344;
    PowerAdds(q, 32, 6);
    assert Power(q, 38) <= 0.0344 * 0.531441;
  }

  lemma PositiveProduct(a: real, b: real)
    requires a > 0.0 && b > 0.0
    ensures a * b > 0.0
  {
  }

  lemma SquareBelow(g: real, h: real)
    requires 0.0 <= g < h
    ensures g * g < h * h
  {
    PositiveProduct(h - g, h + g);
    assert (h - g) * (h + g) == h * h - g * g;
  }

  lemma Scaled(d: real, x: real, y: real)
    requires d >= 0.0 && x <= y
    ensures d * x <= d * y
  {
  }

  // The variance is the mean number of arrivals times the loss rate.
  lemma VarianceOfArrivals(n: nat, k: nat, p: real)
    ensures Variance(n, p) == p * (Gap(n, k, p) + (k as real + Epsilon(k)))
  {
    var N := n as real;
    assert N * p * (1.0 - p) == p * (N * (1.0 - p));
  }

  lemma FractionSquared(p: real)
    requires 0.0 < p <= 1.0
    ensures p * p <= p
  {
    if p < 1.0 {
      PositiveProduct(p, 1.0 - p);
      assert p * (1.0 - p) == p - p * p;
    }
  }

  lemma DeepEnough(g: real, p: real, target: real, v: real)
    requires g >= 0.0 && 0.0 < p <= 1.0 && target >= 2.9 && v == p * (g + target) && g * g >= Z_SQUARED * v
    ensures g >= 3.0 * p
  {
    var bound := 3.0 * p;
    Scaled(p, 2.9, g + target);
    FractionSquared(p);
    assert bound * bound == 9.0 * (p * p);
    assert g * g >= 9.396 * p;
    if g < bound {
      SquareBelow(g, bound);
    }
  }

  // From two symbols on, a met margin leaves a gap of at least three times the loss rate: the arrivals cover a
  // target of 2.9, which puts a floor under the variance.
  lemma GapIsDeep(n: nat, k: nat, p: real)
    requires k >= 2 && 0.0 < p <= 1.0 && Margin(n, k, p)
    ensures Gap(n, k, p) >= 3.0 * p
  {
    assert k as real + Epsilon(k) >= 2.9;
    hide Gap, Variance, Epsilon;
    VarianceOfArrivals(n, k, p);
    DeepEnough(Gap(n, k, p), p, k as real + Epsilon(k), Variance(n, p));
  }

  // A gap that widens by d makes up for x times that much more variance, when it was deep enough.
  lemma CoversWider(g: real, v: real, d: real, x: real)
    requires Covers(g, v) && d >= 0.0 && Z_SQUARED * x <= 2.0 * g
    ensures Covers(g + d, v + d * x)
  {
    Scaled(d, Z_SQUARED * x, 2.0 * g + d);
    assert (g + d) * (g + d) == g * g + d * (2.0 * g + d);
    assert d * (Z_SQUARED * x) == Z_SQUARED * (d * x);
  }

  lemma OneMore(n: nat, k: nat, p: real, d: real)
    requires d == 1.0 - p
    ensures Gap(n + 1, k, p) == Gap(n, k, p) + d
    ensures Variance(n + 1, p) == Variance(n, p) + d * p
  {
    VarianceOfArrivals(n, k, p);
    VarianceOfArrivals(n + 1, k, p);
  }

  // One symbol more, which arrives with probability d, never loses the margin.
  lemma MarginKeeps(n: nat, k: nat, p: real, d: real)
    requires k >= 2 && 0.0 < p <= 1.0 && d == 1.0 - p && Margin(n, k, p)
    ensures Margin(n + 1, k, p)
  {
    hide Covers, Gap, Variance;
    GapIsDeep(n, k, p);
    OneMore(n, k, p, d);
    CoversWider(Gap(n, k, p), Variance(n, p), d, p);
    assert Covers(Gap(n + 1, k, p), Variance(n + 1, p));
  }

  lemma {:induction false} MarginPersists(n: nat, m: nat, k: nat, p: real)
    requires k >= 2 && 0.0 < p <= 1.0 && n <= m && Margin(n, k, p)
    ensures Margin(m, k, p)
    decreases m
  {
    hide Margin;
    if n < m {
      MarginPersists(n, m - 1, k, p);
      MarginKeeps(m - 1, k, p, 1.0 - p);
    }
  }

  lemma LossLower(n: nat, k: nat, p: real, q: real, d: real, x: real)
    requires d == n as real * (q - p) && x == p + q - 1.0
    ensures Gap(n, k, p) == Gap(n, k, q) + d
    ensures Variance(n, p) == Variance(n, q) + d * x
  {
    var N := n as real;
    assert N * (1.0 - p) == N * (1.0 - q) + d;
    assert p * (1.0 - p) == q * (1.0 - q) + (q - p) * x;
    assert N * p * (1.0 - p) == N * (p * (1.0 - p));
    assert N * q * (1.0 - q) == N * (q * (1.0 - q));
    assert d * x == N * ((q - p) * x);
  }

  // A higher loss rate only ever narrows the margin.
  lemma MarginNarrows(n: nat, k: nat, p: real, q: real)
    requires k >= 2 && 0.0 < p <= q <= 1.0 && Margin(n, k, q)
    ensures Margin(n, k, p)
  {
    hide Covers, Gap, Variance;
    var d, x := n as real * (q - p), p + q - 1.0;
    Scaled(n as real, 0.0, q - p);
    GapIsDeep(n, k, q);
    LossLower(n, k, p, q, d, x);
    CoversWider(Gap(n, k, q), Variance(n, q), d, x);
  }

  // Up to one half, the margin is met at the cap.
  lemma MarginAtTheCap(k: nat, p: real)
    requires k >= 2 && 0.0 < p <= 0.5
    ensures Margin(MaxN(k), k, p)
  {
    var K, N := k as real, MaxN(k) as real;
    assert N == 12.0 * K + 16.0;
    var gap := Gap(MaxN(k), k, 0.5);
    assert N * (1.0 - 0.5) == 6.0 * K + 8.0;
    assert gap >= 5.0 * K + 4.6 >= 0.0;
    Products(5.0 * K + 4.6, gap, 5.0 * K + 4.6, gap);
    assert (5.0 * K + 4.6) * (5.0 * K + 4.6) == 25.0 * K * K + 46.0 * K + 21.16;
    assert N * 0.5 * (1.0 - 0.5) == 3.0 * K + 4.0;
    MarginNarrows(MaxN(k), k, p, 0.5);
  }

  /** From two symbols on, at any loss: no N below the one sent meets the margin, and that one does exactly when
      the cap does, which is so up to a loss of one half. */
  lemma CountIsTheLeastThatMeetsTheMargin(k: nat, lossRate: real)
    requires k >= 2 && lossRate > 0.0
    ensures var p, N := Clamped(lossRate), k + Count(k, lossRate);
            && k < N <= MaxN(k)
            && (forall m :: k < m < N ==> !Margin(m, k, p))
            && (Margin(N, k, p) <==> Margin(MaxN(k), k, p))
            && (!Margin(N, k, p) ==> N == MaxN(k))
            && (lossRate <= 0.5 ==> Margin(N, k, p))
  {
    var p, N := Clamped(lossRate), k + Count(k, lossRate);
    if Margin(N, k, p) {
      MarginPersists(N, MaxN(k), k, p);
    }
    if lossRate <= 0.5 {
      MarginAtTheCap(k, p);
    }
  }

  /** A one-symbol block gets the least n >= 2 copies that are all lost with probability at most 0.02. */
  lemma OneSymbolGetsTheLeastCopies(lossRate: real)
    requires lossRate > 0.0
    ensures var p, n := Clamped(lossRate), 1 + Count(1, lossRate);
            n >= 2 && Power(p, n) <= FAILURE_TARGET && forall m :: 2 <= m < n ==> Power(p, m) > FAILURE_TARGET
  {
    var p := Clamped(lossRate);
    CopiesAlwaysFound(p);
    if Copies(p, 1) == 1 {
      assert Power(p, 2) == Power(p, 1) * p;
      PowerRises(p, p, 1);
      Products(Power(p, 1), FAILURE_TARGET, p, 1.0);
    }
  }

  lemma CountIsPositive(k: nat, p: real)
    requires k >= 1
    ensures Count(k, p) >= 1
  {
  }

  /** More loss never means fewer repair symbols, at any two rates. */
  lemma CountRises(k: nat, lossRate: real, higher: real)
    requires k >= 1 && lossRate <= higher
    ensures Count(k, lossRate) <= Count(k, higher)
  {
    CountIsPositive(k, higher);
    var p, q := Clamped(lossRate), Clamped(higher);
    if 0.0 < lossRate {
      if k == 1 {
        CopiesAlwaysFound(p);
        CopiesAlwaysFound(q);
        PowerRises(p, q, Copies(q, 1));
        assert Power(p, Copies(q, 1)) <= FAILURE_TARGET;
        assert Copies(p, 1) <= Copies(q, 1);
      } else if Margin(Search(k, q, k + 1), k, q) {
        MarginNarrows(Search(k, q, k + 1), k, p, q);
      }
    }
  }

  /** The cap does bind at heavy loss: at the clamp a two-symbol block meets the margin for no N up to the cap,
      and 38 repair symbols are sent regardless. */
  lemma CapBindsAtHeavyLoss()
    ensures !Margin(MaxN(2), 2, 0.9)
    ensures Count(2, 0.9) == 38
  {
    var N := MaxN(2) as real;
    assert N == 40.0 && Gap(MaxN(2), 2, 0.9) == 1.1 && Variance(MaxN(2), 0.9) == 3.6;
    CountIsTheLeastThatMeetsTheMargin(2, 0.9);
  }

  lemma TenAtAFifth()
    ensures Margin(21, 10, 0.2) && !Margin(20, 10, 0.2)
  {
    assert Gap(21, 10, 0.2) == 3.4 && Variance(21, 0.2) == 3.36;
    assert Gap(20, 10, 0.2) == 2.6 && Variance(20, 0.2) == 3.2;
  }

  lemma SixCopiesAtAHalf()
    ensures Power(0.5, 6) <= FAILURE_TARGET && Power(0.5, 5) > FAILURE_TARGET
  {
    assert Power(0.5, 1) == 0.5 && Power(0.5, 2) == 0.25 && Power(0.5, 3) == 0.125;
    assert Power(0.5, 4) == 0.0625 && Power(0.5, 5) == 0.03125 && Power(0.5, 6) == 0.015625;
  }

  /** Six copies of a lone symbol at a loss of one half, one spare symbol on a clean link, and eleven more than ten at a
      loss of one fifth, where one more than the expected loss would be three. */
  lemma CountExamples()
    ensures Count(1, 0.5) == 5 && Count(4, 0.0) == 1 && Count(10, 0.2) == 11
  {
    TenAtAFifth();
    SixCopiesAtAHalf();
    OneSymbolGetsTheLeastCopies(0.5);
    CountIsTheLeastThatMeetsTheMargin(10, 0.2);
    hide Margin, Power;
    var n := 10 + Count(10, 0.2);
    if n < 21 {
      MarginPersists(n, 20, 10, 0.2);
    }
    PowersFall(1 + Count(1, 0.5));
  }

  lemma {:induction false} PowersFall(n: nat)
    requires n >= 2
    ensures Power(0.5, n) > FAILURE_TARGET <==> n < 6
  {
    SixCopiesAtAHalf();
    if n == 2 || n == 3 || n == 4 {
      assert Power(0.5, 1) == 0.5 && Power(0.5, 2) == 0.25 && Power(0.5, 3) == 0.125 && Power(0.5, 4) == 0.0625;
    } else if n > 6 {
      PowersFall(n - 1);
    }
  }
}
