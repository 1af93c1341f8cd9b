/** The demand-cover quantile of packages/forecast/src/calibrated-quantile.ts. The exponential and the
    power that give the first term, and the square root in the backstop, come from outside. */
module CountQuantile {
  import opened Numbers
  import opened Wrappers

  const EPS := 0.000000001
  const POISSON_SLACK := 0.000001
  const TOP_TAU := 0.999999

  datatype Fit = Poisson(mean: real) | NegativeBinomial(size: real, prob: real)

  /** Negative Binomial when the variance exceeds the mean, Poisson otherwise. */
  function FitOf(mean: real, variance: real): Fit
    requires mean > 0.0
  {
    var v := Max(variance, mean);
    if v <= mean * (1.0 + POISSON_SLACK) then Poisson(mean)
    else
      var r := mean * mean / (v - mean);
      SizeIsPositive(mean, v);
      NegativeBinomial(r, r / (r + mean))
  }

  ghost predicate Positive(a: real) { a > 0.0 }

  lemma QuotientIsPositive(a: real, b: real)
    requires Positive(a) && Positive(b)
    ensures Positive(a / b)
  {}

  lemma SquareIsPositive(a: real)
    requires a > 0.0
    ensures Positive(a * a)
  {}

  lemma SquareOver(mean: real, square: real, spread: real)
    requires mean > 0.0 && square == mean * mean && Positive(spread)
    ensures Positive(square / spread)
  {
    SquareIsPositive(mean);
    QuotientIsPositive(square, spread);
  }

  lemma SizeIsPositive(mean: real, v: real)
    requires 0.0 < mean < v
    ensures mean * mean / (v - mean) > 0.0
  {
    SquareOver(mean, mean * mean, v - mean);
  }

  /** Multiplication by name, so that a proof can treat products as wholes. */
  ghost function Times(a: real, b: real): real { a * b }

  lemma Distribute(c: real, a: real, b: real)
    ensures Times(c, a + b) == Times(c, a) + Times(c, b)
  {}

  lemma DistributeLeft(a: real, b: real, c: real)
    ensures Times(a + b, c) == Times(a, c) + Times(b, c)
  {}

  lemma Associate(a: real, b: real, c: real)
    ensures Times(Times(a, b), c) == Times(a, Times(b, c))
  {}

  lemma Exchange(a: real, b: real, c: real)
    ensures Times(a, Times(b, c)) == Times(b, Times(a, c))
  {}

  lemma Unit(a: real)
    ensures Times(1.0, a) == a
  {}

  lemma Scaled(q: real, a: real, b: real)
    requires b != 0.0 && q == a / b
    ensures q * b == a
  {}

  lemma SignOf(q: real, b: real)
    requires b > 0.0 && q * b > 0.0
    ensures q > 0.0
  {
    if q <= 0.0 { ScaleDown(q, 0.0, b); }
  }

  lemma ScaleUp(x: real, a: real, b: real)
    requires x > 0.0
    ensures a <= b ==> x * a <= x * b
    ensures a < b ==> x * a < x * b
  {
    if a < b { assert x * (b - a) > 0.0; }
  }

  lemma ScaleDown(a: real, b: real, x: real)
    requires a <= b && x > 0.0
    ensures a * x <= b * x
  {
    ScaleUp(x, a, b);
  }

  // ---------------------------------------------------------------- the closed form

  function Power(x: real, n: nat): real { if n == 0 then 1.0 else Power(x, n - 1) * x }

  function Factorial(n: nat): (f: real)
    ensures f >= 1.0
  {
    if n == 0 then 1.0 else Factorial(n - 1) * n as real
  }

  /** r (r + 1) … (r + n - 1). */
  function Rising(r: real, n: nat): real { if n == 0 then 1.0 else Rising(r, n - 1) * ((n - 1) as real + r) }

  function PoissonMass(mean: real, p0: real, k: nat): real { p0 * (Power(mean, k) / Factorial(k)) }

  function NegativeBinomialMass(size: real, prob: real, p0: real, k: nat): real {
    p0 * (Rising(size, k) / Factorial(k)) * Power(1.0 - prob, k)
  }

  /** The probability of exactly `k`, given the probability `p0` of none. */
  function Mass(fit: Fit, p0: real, k: nat): real {
    match fit
    case Poisson(mean) => PoissonMass(mean, p0, k)
    case NegativeBinomial(size, prob) => NegativeBinomialMass(size, prob, p0, k)
  }

  ghost function MassOf(fit: Fit, p0: real): nat -> real { (k: nat) => Mass(fit, p0, k) }

  lemma Quotients(a: real, b: real, c: real, d: real)
    requires b != 0.0 && d != 0.0
    ensures (a * c) / (b * d) == (a / b) * (c / d)
  {
    var x, y := a / b, c / d;
    assert a == x * b && c == y * d;
    assert a * c == (x * y) * (b * d) by {
      assert (x * b) * (y * d) == (x * y) * (b * d);
    }
    assert b * d != 0.0;
  }

  lemma Regroup(p0: real, a: real, b: real, e: real, f: real, x: real, y: real)
    requires x == a * b && y == e * f
    ensures p0 * x * y == p0 * a * e * (b * f)
  {}

  function NegativeBinomialFactor(size: real, prob: real, k: nat): real
    requires k > 0
  {
    ((k - 1) as real + size) / k as real * (1.0 - prob)
  }

  /** What the loop multiplies by to get from `k - 1` to `k`. */
  function Factor(fit: Fit, k: nat): real
    requires k > 0
  {
    match fit
    case Poisson(mean) => mean / k as real
    case NegativeBinomial(size, prob) => NegativeBinomialFactor(size, prob, k)
  }

  /** The running product of the loop is the closed form. */
  lemma MassStep(fit: Fit, p0: real, k: nat)
    requires k > 0
    ensures Mass(fit, p0, k) == Mass(fit, p0, k - 1) * Factor(fit, k)
  {
    hide PoissonMass, NegativeBinomialMass, NegativeBinomialFactor;
    match fit
    case Poisson(mean) => PoissonStep(mean, p0, k);
    case NegativeBinomial(size, prob) => NegativeBinomialStep(size, prob, p0, k);
  }

  lemma PoissonStep(mean: real, p0: real, k: nat)
    requires k > 0
    ensures PoissonMass(mean, p0, k) == PoissonMass(mean, p0, k - 1) * (mean / k as real)
  {
    Quotients(Power(mean, k - 1), Factorial(k - 1), mean, k as real);
    Reorder(p0, Power(mean, k - 1) / Factorial(k - 1), mean / k as real, Power(mean, k) / Factorial(k));
  }

  lemma Reorder(p0: real, a: real, b: real, x: real)
    requires x == a * b
    ensures p0 * x == p0 * a * b
  {}

  lemma NegativeBinomialStep(size: real, prob: real, p0: real, k: nat)
    requires k > 0
    ensures NegativeBinomialMass(size, prob, p0, k)
      == NegativeBinomialMass(size, prob, p0, k - 1) * NegativeBinomialFactor(size, prob, k)
  {
    hide Factorial, Rising;
    var ratio := RatioStep(size, k);
    Regroup(p0, Rising(size, k - 1) / Factorial(k - 1), ((k - 1) as real + size) / k as real, Power(1.0 - prob, k - 1),
      1.0 - prob, ratio, Power(1.0 - prob, k));
  }

  lemma RatioStep(size: real, k: nat) returns (ratio: real)
    requires k > 0
    ensures ratio == Rising(size, k) / Factorial(k)
      == Rising(size, k - 1) / Factorial(k - 1) * (((k - 1) as real + size) / k as real)
  {
    ratio := Rising(size, k) / Factorial(k);
    Quotients(Rising(size, k - 1), Factorial(k - 1), (k - 1) as real + size, k as real);
  }

  // ---------------------------------------------------------------- the quantile

  /** The distribution function of given probabilities. */
  ghost function Cdf(mass: nat -> real, k: nat): real { mass(k) + (if k == 0 then 0.0 else Cdf(mass, k - 1)) }

  /** The least count whose distribution function reaches `level`, or the backstop. */
  ghost predicate IsQuantile(mass: nat -> real, cap: nat, level: real, q: nat) {
    && q <= cap
    && (forall j: nat :: j < q ==> Cdf(mass, j) < level)
    && (q < cap ==> Cdf(mass, q) >= level)
  }

  lemma FirstMass(fit: Fit, p0: real)
    ensures MassOf(fit, p0)(0) == p0
  {}

  ghost predicate StepsByFactor(mass: nat -> real, fit: Fit, k: nat)
    requires k > 0
  {
    mass(k) == mass(k - 1) * Factor(fit, k)
  }

  ghost predicate FollowsFactors(mass: nat -> real, fit: Fit) {
    forall k: nat :: k > 0 ==> StepsByFactor(mass, fit, k)
  }

  lemma MassFollowsFactors(fit: Fit, p0: real)
    ensures FollowsFactors(MassOf(fit, p0), fit) && MassOf(fit, p0)(0) == p0
  {
    hide Factor, Mass;
    FirstMass(fit, p0);
    forall k: nat | k > 0 ensures StepsByFactor(MassOf(fit, p0), fit, k) {
      MassStep(fit, p0, k);
    }
  }

  function Level(tau: real): real { if tau >= 1.0 then TOP_TAU else tau }

  method CountQuantile(mean: real, variance: real, tau: real, first: Fit -> real, backstop: (real, real) -> nat)
    returns (q: nat)
    requires mean > EPS ==> first(FitOf(mean, variance)) > 0.0
    ensures mean <= 0.000000001 ==> q == 0
    ensures mean > 0.000000001 ==>
              var fit := FitOf(mean, variance);
              IsQuantile(MassOf(fit, first(fit)), backstop(mean, Max(variance, mean)), Level(tau), q)
  {
    ghost var mass: nat -> real := (k: nat) => 0.0;
    if mean > EPS {
      mass := MassOf(FitOf(mean, variance), first(FitOf(mean, variance)));
      MassFollowsFactors(FitOf(mean, variance), first(FitOf(mean, variance)));
    }
    if mean <= EPS || tau <= 0.0 { return 0; }
    var level := if tau >= 1.0 then TOP_TAU else tau;
    var v := Max(variance, mean);
    var cap := backstop(mean, v);
    if v <= mean * (1.0 + POISSON_SLACK) {
      q := PoissonQuantile(mean, first(Poisson(mean)), cap, level, mass);
    } else {
      SizeIsPositive(mean, v);
      var r := mean * mean / (v - mean);
      var prob := r / (r + mean);
      q := NegativeBinomialQuantile(r, prob, first(NegativeBinomial(r, prob)), cap, level, mass);
    }
  }

  method PoissonQuantile(mean: real, first: real, cap: nat, level: real, ghost mass: nat -> real) returns (q: nat)
    requires FollowsFactors(mass, Poisson(mean)) && mass(0) == first
    ensures IsQuantile(mass, cap, level, q)
  {
    var pmf := first;
    var cum := pmf;
    if cum >= level { return 0; }
    for k := 1 to cap + 1
      invariant pmf == mass(k - 1) && cum == Cdf(mass, k - 1)
      invariant forall j: nat :: j < k ==> Cdf(mass, j) < level
    {
      assert StepsByFactor(mass, Poisson(mean), k);
      pmf := pmf * (mean / k as real);
      cum := cum + pmf;
      if cum >= level { return k; }
    }
    return cap;
  }

  method NegativeBinomialQuantile(r: real, prob: real, first: real, cap: nat, level: real, ghost mass: nat -> real)
    returns (q: nat)
    requires FollowsFactors(mass, NegativeBinomial(r, prob)) && mass(0) == first
    ensures IsQuantile(mass, cap, level, q)
  {
    var pmf := first;
    var cum := pmf;
    if cum >= level { return 0; }
    for k := 1 to cap + 1
      invariant pmf == mass(k - 1) && cum == Cdf(mass, k - 1)
      invariant forall j: nat :: j < k ==> Cdf(mass, j) < level
    {
      assert StepsByFactor(mass, NegativeBinomial(r, prob), k);
      pmf := pmf * (((k - 1) as real + r) / k as real * (1.0 - prob));
      cum := cum + pmf;
      if cum >= level { return k; }
    }
    return cap;
  }

  /** A higher tau never gives a smaller count, except from just under one to one or more: tau = 1
      stands for 0.999999. There the order can turn round, but only there. */
  lemma MonotoneInTau(mass: nat -> real, cap: nat, low: real, high: real, a: nat, b: nat)
    requires low <= high && IsQuantile(mass, cap, Level(low), a) && IsQuantile(mass, cap, Level(high), b)
    ensures Level(low) <= Level(high) <==> !(0.999999 < low < 1.0 <= high)
    ensures !(0.999999 < low < 1.0 <= high) ==> a <= b
    ensures 0.999999 < low < 1.0 <= high ==> b <= a
  {}

  /** At a mean of a millionth the first term 0.9999990000005 covers tau = 1 with 0 units, while
      tau = 0.9999995 takes 1. */
  lemma FallsAtOne()
    ensures var fit := FitOf(0.000001, 0.000001); var mass := MassOf(fit, 0.9999990000005);
      IsQuantile(mass, 101, Level(1.0), 0) && IsQuantile(mass, 101, Level(0.9999995), 1)
  {
    var fit := Poisson(0.000001);
    var mass := MassOf(fit, 0.9999990000005);
    MassFollowsFactors(fit, 0.9999990000005);
    assert StepsByFactor(mass, fit, 1);
    assert Factor(fit, 1) == 0.000001;
    assert Cdf(mass, 0) == 0.9999990000005;
    assert Cdf(mass, 1) == 0.9999990000005 * 1.000001;
  }

  // ---------------------------------------------------------------- the moments

  /** The variance the fit stands for: a Poisson's is its mean. */
  function FitVariance(mean: real, variance: real): real
    requires mean > 0.0
  {
    if FitOf(mean, variance).Poisson? then mean else variance
  }

  lemma SizeTimesSpread(mean: real, v: real, r: real)
    requires mean > 0.0 && v > mean && r == mean * mean / (v - mean)
    ensures r > 0.0 && r * (v - mean) == mean * mean
    ensures r / (r + mean) == mean / v
  {
    var d := v - mean;
    SizeIsPositive(mean, v);
    Scaled(r, mean * mean, d);
    assert r * v == mean * (r + mean) by {
      assert r * v == r * d + r * mean;
    }
    SameRatio(r, r + mean, mean, v);
  }

  lemma SameRatio(a: real, b: real, c: real, d: real)
    requires b > 0.0 && d > 0.0 && a * d == c * b
    ensures a / b == c / d
  {
    var x, y := a / b, c / d;
    Scaled(x, a, b);
    Scaled(y, c, d);
    assert (x * b) * d == (y * d) * b;
    assert x * (b * d) == y * (b * d);
    assert b * d > 0.0;
    Cancel(x, y, b * d);
  }

  lemma Cancel(a: real, b: real, c: real)
    requires c > 0.0 && a * c == b * c
    ensures a == b
  {
    assert (a - b) * c == 0.0;
  }

  lemma Undo(a: real, b: real, c: real)
    requires b > 0.0 && c == a * b
    ensures c / b == a
  {}

  lemma BelowOne(a: real, b: real)
    requires 0.0 < a < b
    ensures 0.0 < a / b < 1.0
  {
    Between(a / b, a, b);
  }

  lemma Between(q: real, a: real, b: real)
    requires 0.0 < a < b && q == a / b
    ensures 0.0 < q < 1.0
  {
    Scaled(q, a, b);
    SignOf(q, b);
    assert (1.0 - q) * b == b - a;
    SignOf(1.0 - q, b);
  }

  /** Moment matching is exact: the fitted Negative Binomial's mean r(1 - p)/p and variance
      r(1 - p)/p² are the mean and variance asked for. */
  lemma MomentsMatch(mean: real, variance: real)
    requires mean > 0.0 && FitOf(mean, variance).NegativeBinomial?
    ensures var NegativeBinomial(r, p) := FitOf(mean, variance);
      0.0 < p < 1.0 && r > 0.0 && r * (1.0 - p) / p == mean && r * (1.0 - p) / (p * p) == variance
  {
    var NegativeBinomial(r, p) := FitOf(mean, variance);
    assert variance > mean;
    SizeTimesSpread(mean, variance, r);
    BelowOne(mean, variance);
    Scaled(p, mean, variance);
    FailuresTimesSize(mean, variance, r, p);
    assert p * p > 0.0;
    Undo(mean, p, r * (1.0 - p));
    Undo(variance, p * p, r * (1.0 - p));
  }

  lemma FailuresTimesSize(mean: real, v: real, r: real, p: real)
    requires v > 0.0 && p * v == mean && r * (v - mean) == mean * mean
    ensures r * (1.0 - p) == mean * p == v * (p * p)
  {
    assert (1.0 - p) * v == v - mean;
    assert (r * (1.0 - p)) * v == r * (v - mean);
    assert (mean * p) * v == mean * mean;
    Cancel(r * (1.0 - p), mean * p, v);
    assert mean * p == (p * v) * p;
  }

  ghost predicate WeightBalance(mean: real, v: real, j: real, m: real, next: real) {
    Times(v, next) == Times(Times(v - mean, j) + Times(mean, mean), m)
  }

  ghost predicate MeanBalance(mean: real, v: real, moment: real, last: real, below: real) {
    Times(mean, moment) + Times(v - mean, last) == Times(Times(mean, mean), below)
  }

  ghost predicate VarianceBalance(mean: real, v: real, second: real, last: real, moment: real, below: real) {
    Times(mean, second) + Times(v - mean, last)
      == Times(v - mean + Times(mean, mean), moment) + Times(Times(mean, mean), below)
  }

  /** A probability in terms of the one before, by mean and variance alone. */
  ghost predicate Weighs(mass: nat -> real, mean: real, v: real, k: nat)
    requires k > 0
  {
    WeightBalance(mean, v, (k - 1) as real, mass(k - 1), Share(mass, k))
  }

  ghost predicate HasWeights(mass: nat -> real, mean: real, v: real) {
    forall k: nat :: k > 0 ==> Weighs(mass, mean, v, k)
  }

  lemma FitHasWeights(mean: real, variance: real, p0: real)
    requires mean > 0.0
    ensures HasWeights(MassOf(FitOf(mean, variance), p0), mean, FitVariance(mean, variance))
  {
    hide Factor, Mass, MassOf, FitOf, FitVariance;
    var fit, v := FitOf(mean, variance), FitVariance(mean, variance);
    var mass := MassOf(fit, p0);
    MassFollowsFactors(fit, p0);
    forall k: nat | k > 0 ensures Weighs(mass, mean, v, k) {
      assert StepsByFactor(mass, fit, k);
      FactorWeight(mean, variance, k);
      Reassociate(v, k as real, mass(k - 1), Factor(fit, k), mass(k), (v - mean) * (k - 1) as real + mean * mean);
    }
  }

  lemma FactorWeight(mean: real, variance: real, k: nat)
    requires mean > 0.0 && k > 0
    ensures var fit, v := FitOf(mean, variance), FitVariance(mean, variance);
      v * (k as real * Factor(fit, k)) == (v - mean) * (k - 1) as real + mean * mean
  {
    var n := k as real;
    match FitOf(mean, variance)
    case Poisson(mu) =>
      Scaled(mean / n, mean, n);
    case NegativeBinomial(r, p) =>
      SizeTimesSpread(mean, variance, r);
      Scaled(mean / variance, mean, variance);
      var c := (k - 1) as real + r;
      Scaled(c / n, c, n);
      NegativeBinomialWeight(mean, variance, r, p, n - 1.0, n, c / n);
  }

  lemma NegativeBinomialWeight(mean: real, v: real, r: real, p: real, j: real, n: real, ratio: real)
    requires p * v == mean && r * (v - mean) == mean * mean && ratio * n == j + r
    ensures v * (n * (ratio * (1.0 - p))) == (v - mean) * j + mean * mean
  {
    assert n * (ratio * (1.0 - p)) == (ratio * n) * (1.0 - p);
    assert v * ((j + r) * (1.0 - p)) == (j + r) * (v * (1.0 - p));
    assert v * (1.0 - p) == v - mean;
    assert (j + r) * (v - mean) == (v - mean) * j + r * (v - mean);
  }

  lemma Reassociate(v: real, n: real, m: real, f: real, next: real, w: real)
    requires next == m * f && v * (n * f) == w
    ensures v * (n * next) == w * m
  {
    assert n * next == (n * f) * m;
    var x := n * f;
    assert v * (x * m) == v * x * m;
  }

  ghost function Share(mass: nat -> real, k: nat): real { k as real * mass(k) }

  ghost function SquareShare(mass: nat -> real, k: nat): real { k as real * (k as real * mass(k)) }

  /** Sums of j·P(j) and of j²·P(j) over the counts up to `k`. */
  ghost function FirstMoment(mass: nat -> real, k: nat): real {
    if k == 0 then 0.0 else FirstMoment(mass, k - 1) + Share(mass, k)
  }

  ghost function SecondMoment(mass: nat -> real, k: nat): real {
    if k == 0 then 0.0 else SecondMoment(mass, k - 1) + SquareShare(mass, k)
  }

  /** The masses the loop adds up really have the mean asked for: up to any count, the first moment
      is the mean times the probability below, short of it only by a multiple of the last term. */
  ghost predicate MeanUpTo(mass: nat -> real, mean: real, v: real, k: nat)
    requires k > 0
  {
    MeanBalance(mean, v, FirstMoment(mass, k), Share(mass, k), Cdf(mass, k - 1))
  }

  /** And the variance asked for: in the limit this reads E[X²] = v + mean². */
  ghost predicate VarianceUpTo(mass: nat -> real, mean: real, v: real, k: nat)
    requires k > 0
  {
    VarianceBalance(mean, v, SecondMoment(mass, k), SquareShare(mass, k), FirstMoment(mass, k - 1), Cdf(mass, k - 1))
  }

  lemma {:induction false} WeightsGiveMean(mass: nat -> real, mean: real, v: real, k: nat)
    requires HasWeights(mass, mean, v) && k > 0
    ensures MeanUpTo(mass, mean, v, k)
  {
    hide Weighs, Share, MeanBalance;
    if k > 1 { WeightsGiveMean(mass, mean, v, k - 1); } else { FirstBalance(mass, mean, v); }
    var below := if k > 1 then Cdf(mass, k - 2) else 0.0;
    assert Weighs(mass, mean, v, k);
    MeanGrows(mass, mean, v, k, FirstMoment(mass, k - 1), below);
    assert FirstMoment(mass, k) == FirstMoment(mass, k - 1) + Share(mass, k) && Cdf(mass, k - 1) == mass(k - 1) + below;
  }

  lemma {:induction false} WeightsGiveVariance(mass: nat -> real, mean: real, v: real, k: nat)
    requires HasWeights(mass, mean, v) && k > 0
    ensures VarianceUpTo(mass, mean, v, k)
  {
    hide Weighs, Share, SquareShare, VarianceBalance;
    FirstBalance(mass, mean, v);
    if k <= 1 {
    } else {
      WeightsGiveVariance(mass, mean, v, k - 1);
    }
    var below, moment := if k > 1 then Cdf(mass, k - 2) else 0.0, if k > 1 then FirstMoment(mass, k - 2) else 0.0;
    assert Weighs(mass, mean, v, k);
    VarianceGrows(mass, mean, v, k, SecondMoment(mass, k - 1), moment, below);
    assert SecondMoment(mass, k) == SecondMoment(mass, k - 1) + SquareShare(mass, k);
    assert Cdf(mass, k - 1) == mass(k - 1) + below && FirstMoment(mass, k - 1) == moment + Share(mass, k - 1);
  }

  lemma FirstBalance(mass: nat -> real, mean: real, v: real)
    ensures Share(mass, 0) == 0.0
    ensures MeanBalance(mean, v, 0.0, Share(mass, 0), 0.0)
      && VarianceBalance(mean, v, 0.0, SquareShare(mass, 0), 0.0, 0.0)
  {}

  lemma MeanGrows(mass: nat -> real, mean: real, v: real, k: nat, moment: real, below: real)
    requires k > 0 && Weighs(mass, mean, v, k) && MeanBalance(mean, v, moment, Share(mass, k - 1), below)
    ensures MeanBalance(mean, v, moment + Share(mass, k), Share(mass, k), mass(k - 1) + below)
  {
    hide WeightBalance, MeanBalance;
    MeanAlgebra(mean, v, (k - 1) as real, mass(k - 1), Share(mass, k - 1), Share(mass, k), moment, below);
  }

  lemma VarianceGrows(mass: nat -> real, mean: real, v: real, k: nat, second: real, moment: real, below: real)
    requires k > 0 && Weighs(mass, mean, v, k)
      && VarianceBalance(mean, v, second, SquareShare(mass, k - 1), moment, below)
    ensures VarianceBalance(mean, v, second + SquareShare(mass, k), SquareShare(mass, k), moment + Share(mass, k - 1),
      mass(k - 1) + below)
  {
    hide WeightBalance, VarianceBalance;
    SecondAlgebra(mean, v, (k - 1) as real, k as real, mass(k - 1), Share(mass, k - 1), Share(mass, k),
      SquareShare(mass, k - 1), SquareShare(mass, k), second, moment, below);
  }

  lemma MeanAlgebra(mean: real, v: real, j: real, m: real, share: real, next: real, moment: real, below: real)
    requires share == Times(j, m)
    requires WeightBalance(mean, v, j, m, next)
    requires MeanBalance(mean, v, moment, share, below)
    ensures MeanBalance(mean, v, moment + next, next, m + below)
  {
    hide Times;
    var d, s := v - mean, Times(mean, mean);
    Distribute(mean, moment, next);
    DistributeLeft(mean, d, next);
    DistributeLeft(Times(d, j), s, m);
    Associate(d, j, m);
    Distribute(s, m, below);
  }

  lemma SecondAlgebra(mean: real, v: real, j: real, n: real, m: real, share: real, next: real, square: real, last: real,
                      second: real, moment: real, below: real)
    requires n == j + 1.0 && share == Times(j, m) && square == Times(j, share) && last == Times(n, next)
    requires WeightBalance(mean, v, j, m, next)
    requires VarianceBalance(mean, v, second, square, moment, below)
    ensures VarianceBalance(mean, v, second + last, last, moment + share, m + below)
  {
    hide Times;
    var d, s := v - mean, Times(mean, mean);
    Distribute(mean, second, last);
    DistributeLeft(mean, d, last);
    NextSecondTerm(v, d, s, j, n, m, share, next);
    Distribute(d + s, moment, share);
    DistributeLeft(d, s, share);
    Distribute(s, m, below);
  }

  lemma NextSecondTerm(v: real, d: real, s: real, j: real, n: real, m: real, share: real, next: real)
    requires n == j + 1.0 && share == Times(j, m) && Times(v, next) == Times(Times(d, j) + s, m)
    ensures Times(v, Times(n, next)) == Times(d, Times(j, share)) + Times(d, share) + Times(s, share) + Times(s, m)
  {
    hide Times;
    var x := Times(v, next);
    Exchange(v, n, next);
    DistributeLeft(Times(d, j), s, m);
    Associate(d, j, m);
    DistributeLeft(j, 1.0, x);
    Unit(x);
    Distribute(j, Times(d, share), Times(s, m));
    Exchange(j, d, share);
    Exchange(j, s, m);
  }

  /** The masses of either fit have the mean and variance it was fitted to. */
  lemma FitHasMoments(mean: real, variance: real, p0: real, k: nat)
    requires mean > 0.0 && k > 0
    ensures var mass, v := MassOf(FitOf(mean, variance), p0), FitVariance(mean, variance);
      MeanUpTo(mass, mean, v, k) && VarianceUpTo(mass, mean, v, k)
  {
    FitHasWeights(mean, variance, p0);
    WeightsGiveMean(MassOf(FitOf(mean, variance), p0), mean, FitVariance(mean, variance), k);
    WeightsGiveVariance(MassOf(FitOf(mean, variance), p0), mean, FitVariance(mean, variance), k);
  }

  // ---------------------------------------------------------------- the cover

  const DEFAULT_DISPERSION_FLOOR := 1.5

  datatype CoverInput = CoverInput(dailyMean: real, dailyVar: real, horizonDays: real, tau: real,
                                   dispersionFloor: Option<real>, biasFactor: Option<real>)

  /** Expected demand a day after the bias correction. */
  function CorrectedMean(c: CoverInput): real { Max(0.0, c.dailyMean * c.biasFactor.GetOr(1.0)) }

  function FlooredVariance(c: CoverInput): real {
    Max(c.dailyVar, CorrectedMean(c) * c.dispersionFloor.GetOr(DEFAULT_DISPERSION_FLOOR))
  }

  function Horizon(c: CoverInput): real { Max(1.0, c.horizonDays) }

  function CoverMean(c: CoverInput): real { CorrectedMean(c) * Horizon(c) }

  function CoverVariance(c: CoverInput): real { FlooredVariance(c) * Horizon(c) }

  lemma CoverMeanIsLarger(c: CoverInput)
    ensures CorrectedMean(c) > EPS ==> CoverMean(c) > EPS
  {
    if CorrectedMean(c) > EPS { ScaleUp(CorrectedMean(c), 1.0, Horizon(c)); }
  }

  /** The cover is the quantile of the demand over the horizon; no demand needs no cover. */
  method CalibratedCover(c: CoverInput, first: Fit -> real, backstop: (real, real) -> nat) returns (q: nat)
    requires forall fit :: first(fit) > 0.0
    ensures CorrectedMean(c) <= EPS ==> q == 0
    ensures CorrectedMean(c) > EPS ==>
              CoverMean(c) > EPS &&
              var fit := FitOf(CoverMean(c), CoverVariance(c));
              IsQuantile(MassOf(fit, first(fit)), backstop(CoverMean(c), Max(CoverVariance(c), CoverMean(c))),
                Level(c.tau), q)
  {
    hide CorrectedMean, CoverMean, CoverVariance, FitOf, MassOf, IsQuantile;
    if CorrectedMean(c) <= EPS { return 0; }
    CoverMeanIsLarger(c);
    q := CountQuantile(CoverMean(c), CoverVariance(c), c.tau, first, backstop);
  }

  /** With a dispersion floor above one, as by default, the cover is always taken from a Negative
      Binomial at least as dispersed as the floor. */
  lemma CoverIsOverDispersed(c: CoverInput)
    requires CorrectedMean(c) > 0.000000001 && c.dispersionFloor.GetOr(1.5) > 1.000001
    ensures CoverMean(c) > 0.000000001 && FitOf(CoverMean(c), CoverVariance(c)).NegativeBinomial?
    ensures CoverVariance(c) >= c.dispersionFloor.GetOr(1.5) * CoverMean(c)
  {
    hide FitOf, CorrectedMean, CoverMean, CoverVariance, Max;
    CoverMeanIsLarger(c);
    CoverKeepsFloor(c);
    OverDispersed(CoverMean(c), CoverVariance(c), c.dispersionFloor.GetOr(DEFAULT_DISPERSION_FLOOR));
  }

  lemma CoverKeepsFloor(c: CoverInput)
    ensures CoverVariance(c) >= c.dispersionFloor.GetOr(DEFAULT_DISPERSION_FLOOR) * CoverMean(c)
  {
    hide CorrectedMean;
    FloorScales(CorrectedMean(c), FlooredVariance(c), Horizon(c), c.dispersionFloor.GetOr(DEFAULT_DISPERSION_FLOOR));
  }

  lemma FloorScales(daily: real, variance: real, horizon: real, floor: real)
    requires variance >= daily * floor && horizon >= 1.0
    ensures variance * horizon >= floor * (daily * horizon)
  {
    ScaleDown(daily * floor, variance, horizon);
    assert (daily * floor) * horizon == floor * (daily * horizon);
  }

  lemma OverDispersed(mean: real, v: real, floor: real)
    requires mean > 0.0 && v >= floor * mean && floor > 1.0 + POISSON_SLACK
    ensures FitOf(mean, v).NegativeBinomial?
  {
    ScaleUp(mean, 1.0 + POISSON_SLACK, floor);
    assert mean * floor == floor * mean;
  }
}
