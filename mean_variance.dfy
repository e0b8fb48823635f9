/** Mean-variance optimisation: the smoothed negative-Sharpe objective with
    its concentration penalty, the box and budget constraints, the uniform
    starting point, and the post-processing of the solver's answer (dust
    weights zeroed, the rest renormalised, the uniform vector as fallback).
    The SLSQP solver itself is an input: its outcome is passed in. */
module MeanVariance {
  import opened Stats
  import opened PortfolioMetrics

  /** Weights below this are treated as rounding dust and set to zero. */
  const SmallWeight: real := 0.0001

  /** Added to the volatility in the objective's denominator. */
  const RiskEpsilon: real := 0.00000001

  const DefaultMaxWeight: real := 0.4

  const DefaultAlpha: real := 0.1

  /** The inputs of `mvo_optimization`. */
  datatype Problem = Problem(
    expectedReturns: seq<real>,
    cov: seq<seq<real>>,
    riskFreeRate: real,
    maxWeight: real,
    alpha: real)

  /** What `minimize` produced: a converged point, a reported failure with
      its message, or an exception with its text. */
  datatype SolverOutcome =
    | Converged(x: seq<real>)
    | NotConverged(message: string)
    | Raised(error: string)

  predicate WellShaped(p: Problem) {
    IsMatrix(p.cov, |p.expectedReturns|)
  }

  /** The constraints handed to the solver: the weights sum to one and each
      lies in `[0, maxWeight]`. */
  predicate Feasible(p: Problem, w: seq<real>)
    ensures Feasible(p, w) ==> forall i :: 0 <= i < |w| ==> w[i] <= 1.0
    ensures Feasible(p, w) ==> 1.0 <= |w| as real * p.maxWeight
  {
    |w| == |p.expectedReturns|
    && (forall i :: 0 <= i < |w| ==> 0.0 <= w[i] <= p.maxWeight)
    && (EntryAtMostSum(w); SumAtMost(w, p.maxWeight); Sum(w) == 1.0)
  }

  /** A non-negative entry is at most the sum of all of them. */
  lemma {:induction false} EntryAtMostSum(w: seq<real>)
    requires forall i :: 0 <= i < |w| ==> 0.0 <= w[i]
    ensures forall i :: 0 <= i < |w| ==> w[i] <= Sum(w)
  {
    if |w| > 0 {
      EntryAtMostSum(w[1..]);
      SumNonNegative(w[1..]);
      assert forall i :: 1 <= i < |w| ==> w[i] == w[1..][i - 1];
    }
  }

  // ---------------------------------------------------------------------
  // Objective

  /** The Sharpe ratio with `vol + 1e-8` as denominator instead of a zero
      guard: its product with that denominator is the excess return, so its
      sign is the sign of the excess return, and at zero volatility it is
      the excess return scaled by 10^8 rather than 0. */
  function SmoothedSharpe(p: Problem, w: seq<real>, sqrt: real -> real): (s: real)
    requires IsSqrt(sqrt) && WellShaped(p) && |w| == |p.expectedReturns|
    requires 0.0 <= QuadForm(w, p.cov)
    ensures Product(s, PortfolioVolatility(w, p.cov, sqrt) + RiskEpsilon)
              == PortfolioReturn(w, p.expectedReturns) - p.riskFreeRate
    ensures 0.0 < s <==> p.riskFreeRate < PortfolioReturn(w, p.expectedReturns)
    ensures s < 0.0 <==> PortfolioReturn(w, p.expectedReturns) < p.riskFreeRate
  {
    var excess := PortfolioReturn(w, p.expectedReturns) - p.riskFreeRate;
    var denominator := PortfolioVolatility(w, p.cov, sqrt) + RiskEpsilon;
    QuotientFacts(excess, denominator);
    excess / denominator
  }

  /** `np.sum(weights**2)`, never negative. */
  function SumOfSquares(w: seq<real>): (s: real)
    ensures 0.0 <= s
  {
    if |w| == 0 then 0.0
    else
      SquareFacts(w[0]);
      Square(w[0]) + SumOfSquares(w[1..])
  }

  /** `alpha * np.sum(weights**2)`: never negative for a non-negative
      `alpha`, and zero when `alpha` is. */
  function Penalty(p: Problem, w: seq<real>): (pen: real)
    ensures 0.0 <= p.alpha ==> 0.0 <= pen
    ensures p.alpha == 0.0 ==> pen == 0.0
  {
    p.alpha * SumOfSquares(w)
  }

  /** The minimised objective `-sharpe + penalty`. With a non-negative
      `alpha` the objective can only drop below zero for a portfolio whose
      return beats the risk-free rate. */
  function NegativeSharpeRatio(p: Problem, w: seq<real>, sqrt: real -> real): (f: real)
    requires IsSqrt(sqrt) && WellShaped(p) && |w| == |p.expectedReturns|
    requires 0.0 <= QuadForm(w, p.cov)
    ensures 0.0 <= p.alpha && f < 0.0 ==> p.riskFreeRate < PortfolioReturn(w, p.expectedReturns)
    ensures p.alpha == 0.0 ==> f == -SmoothedSharpe(p, w, sqrt)
  {
    -SmoothedSharpe(p, w, sqrt) + Penalty(p, w)
  }

  lemma {:induction false} SumOfSquaresBounds(w: seq<real>)
    requires forall i :: 0 <= i < |w| ==> 0.0 <= w[i] <= 1.0
    ensures 0.0 <= SumOfSquares(w) <= Sum(w)
  {
    if |w| > 0 {
      SumOfSquaresBounds(w[1..]);
      SquareFacts(w[0]);
      ProductMonotone(w[0], w[0], 1.0);
    }
  }

  /** On a feasible point with a non-negative `alpha` the penalty lies in
      `[0, alpha]`, so the objective is never below the negated smoothed
      Sharpe ratio and exceeds it by at most `alpha`. */
  lemma PenaltyBounds(p: Problem, w: seq<real>, sqrt: real -> real)
    requires IsSqrt(sqrt) && WellShaped(p) && Feasible(p, w)
    requires 0.0 <= QuadForm(w, p.cov)
    requires 0.0 <= p.alpha
    ensures 0.0 <= Penalty(p, w) <= p.alpha
    ensures -SmoothedSharpe(p, w, sqrt) <= NegativeSharpeRatio(p, w, sqrt)
              <= -SmoothedSharpe(p, w, sqrt) + p.alpha
  {
    SumOfSquaresBounds(w);
    ProductMonotone(p.alpha, 0.0, SumOfSquares(w));
    ProductMonotone(p.alpha, SumOfSquares(w), 1.0);
  }

  /** With positive volatility and a non-negative excess return the smoothed
      ratio of the objective is non-negative and never above the guarded
      `portfolio_sharpe_ratio`. */
  lemma SmoothedSharpeAtMostGuarded(p: Problem, w: seq<real>, sqrt: real -> real)
    requires IsSqrt(sqrt) && WellShaped(p) && |w| == |p.expectedReturns|
    requires 0.0 <= QuadForm(w, p.cov)
    requires 0.0 < PortfolioVolatility(w, p.cov, sqrt)
    requires p.riskFreeRate <= PortfolioReturn(w, p.expectedReturns)
    ensures 0.0 <= SmoothedSharpe(p, w, sqrt)
              <= PortfolioSharpeRatio(w, p.expectedReturns, p.cov, p.riskFreeRate, sqrt)
  {
    var s := SmoothedSharpe(p, w, sqrt);
    var g := PortfolioSharpeRatio(w, p.expectedReturns, p.cov, p.riskFreeRate, sqrt);
    var vol := PortfolioVolatility(w, p.cov, sqrt);
    assert Product(s, vol + RiskEpsilon) == Product(g, vol);
    assert Product(s, vol + RiskEpsilon) == Product(s, vol) + Product(s, RiskEpsilon);
    ProductNonNegative(s, RiskEpsilon);
    if g < s {
      ProductPositive(s - g, vol);
    }
  }

  // ---------------------------------------------------------------------
  // Starting point and bounds

  /** `np.array([1/n] * n)`, the solver's starting point and the fallback. */
  function InitialWeights(n: nat): (w: seq<real>)
    requires n >= 1
    ensures |w| == n && Sum(w) == 1.0
    ensures forall i :: 0 <= i < n ==> w[i] * n as real == 1.0
  {
    UniformIsDistribution(n);
    Uniform(n)
  }

  /** The starting point satisfies the solver's bounds exactly when the cap
      leaves room for a fully invested portfolio, `n * maxWeight >= 1`;
      nothing in the code checks this. */
  lemma InitialGuessFeasibleIff(p: Problem)
    requires |p.expectedReturns| >= 1
    ensures var n := |p.expectedReturns|;
            Feasible(p, InitialWeights(n)) <==> 1.0 <= n as real * p.maxWeight
  {
    var n := |p.expectedReturns|;
    var u := InitialWeights(n);
    var share := 1.0 / n as real;
    assert forall i :: 0 <= i < n ==> u[i] == share;
    assert Product(share, n as real) == 1.0;
    if share <= p.maxWeight {
      ProductMonotone(n as real, share, p.maxWeight);
    } else {
      ProductMonotone(n as real, p.maxWeight, share);
      ProductPositive(n as real, share - p.maxWeight);
      assert Product(n as real, share - p.maxWeight) == Product(n as real, share) - Product(n as real, p.maxWeight);
    }
  }

  // ---------------------------------------------------------------------
  // Post-processing

  /** `weights[weights < 1e-4] = 0`: dust and negative entries become 0. */
  function ZeroSmall(x: seq<real>): (z: seq<real>)
    ensures |z| == |x|
    ensures forall i :: 0 <= i < |x| ==> 0.0 <= z[i]
    ensures forall i :: 0 <= i < |x| ==> z[i] == 0.0 || (z[i] == x[i] && SmallWeight <= x[i])
    ensures forall i :: 0 <= i < |x| ==> (z[i] == 0.0 <==> x[i] < SmallWeight)
  {
    seq(|x|, i requires 0 <= i < |x| => if x[i] < SmallWeight then 0.0 else x[i])
  }

  /** Some weight survives the dust mask exactly when some entry of the
      answer is at least `1e-4`. */
  lemma SurvivorsExistIff(x: seq<real>)
    ensures Sum(ZeroSmall(x)) > 0.0 <==> exists i :: 0 <= i < |x| && SmallWeight <= x[i]
  {
    var z := ZeroSmall(x);
    EntryAtMostSum(z);
    if exists i :: 0 <= i < |x| && SmallWeight <= x[i] {
      var i :| 0 <= i < |x| && SmallWeight <= x[i];
      assert z[i] == x[i];
    } else {
      SumOfConstant(z, 0.0);
    }
  }

  /** The weights `mvo_optimization` returns for a solver outcome, as a
      function: the renormalised surviving weights when the solver converged
      and some weight survived, the uniform vector otherwise. Whatever the
      solver did, the result is a long-only, fully invested portfolio of `n`
      weights. */
  function ProcessOutcome(n: nat, outcome: SolverOutcome): (w: seq<real>)
    requires n >= 1
    requires outcome.Converged? ==> |outcome.x| == n
    ensures |w| == n
    ensures Sum(w) == 1.0
    ensures forall i :: 0 <= i < n ==> 0.0 <= w[i]
  {
    var u := InitialWeights(n);
    assert forall i :: 0 <= i < n ==> u[i] == 1.0 / n as real;
    match outcome
    case Converged(x) =>
      var z := ZeroSmall(x);
      if Sum(z) > 0.0 then NormalisedIsDistribution(z); Normalised(z) else u
    case NotConverged(_) => u
    case Raised(_) => u
  }

  /** `weights[weights < 1e-4] = 0` on an array, in place. */
  method ZeroSmallInPlace(a: array<real>)
    modifies a
    ensures a[..] == ZeroSmall(old(a[..]))
  {
    forall i | 0 <= i < a.Length && a[i] < SmallWeight {
      a[i] := 0.0;
    }
  }

  /** `np.sum` of an array. */
  method SumOf(a: array<real>) returns (total: real)
    ensures total == Sum(a[..])
  {
    total := 0.0;
    var k := a.Length;
    while k > 0
      invariant 0 <= k <= a.Length
      invariant total == Sum(a[k..])
    {
      k := k - 1;
      assert a[k..][1..] == a[k + 1..];
      total := a[k] + total;
    }
    assert a[0..] == a[..];
  }

  /** `weights / total` on an array, in place. */
  method DivideInPlace(a: array<real>, total: real)
    requires total != 0.0
    modifies a
    ensures a[..] == seq(a.Length, i requires 0 <= i < a.Length => old(a[i]) / total)
  {
    forall i | 0 <= i < a.Length {
      a[i] := a[i] / total;
    }
  }

  /** `mvo_optimization` from the solver's outcome on: the converged point is
      copied into an array, its dust entries are zeroed in place, and the
      array is divided by its sum when that is positive; any other outcome,
      or a zero surviving sum, gives the uniform vector. The result is always
      a long-only, fully invested portfolio. */
  method MvoOptimization(p: Problem, outcome: SolverOutcome) returns (weights: seq<real>)
    requires |p.expectedReturns| >= 1
    requires outcome.Converged? ==> |outcome.x| == |p.expectedReturns|
    ensures weights == ProcessOutcome(|p.expectedReturns|, outcome)
    ensures |weights| == |p.expectedReturns|
    ensures Sum(weights) == 1.0
    ensures forall i :: 0 <= i < |weights| ==> 0.0 <= weights[i]
  {
    var n := |p.expectedReturns|;
    var initialWeights := InitialWeights(n);
    match outcome {
      case Converged(x) =>
        var a := new real[n](i requires 0 <= i < n => x[i]);
        assert a[..] == x;
        ZeroSmallInPlace(a);
        var total := SumOf(a);
        if total > 0.0 {
          DivideInPlace(a, total);
          weights := a[..];
          NormalisedIsDistribution(ZeroSmall(x));
        } else {
          weights := initialWeights;
        }
      case NotConverged(_) =>
        weights := initialWeights;
      case Raised(_) =>
        weights := initialWeights;
    }
  }

  // ---------------------------------------------------------------------
  // Consequences of the post-processing

  /** Every entry of a converged point below `1e-4` (negative ones
      included) ends up 0, whichever branch is taken. */
  lemma DustIsZeroed(n: nat, x: seq<real>, i: nat)
    requires n >= 1 && |x| == n && i < n
    requires x[i] < SmallWeight
    ensures ProcessOutcome(n, Converged(x))[i] == 0.0 || ProcessOutcome(n, Converged(x)) == InitialWeights(n)
    ensures Sum(ZeroSmall(x)) > 0.0 ==> ProcessOutcome(n, Converged(x))[i] == 0.0
  {
    var z := ZeroSmall(x);
    if Sum(z) > 0.0 {
      NormalisedIsDistribution(z);
      assert z[i] == 0.0;
      assert Normalised(z)[i] * Sum(z) == 0.0;
    }
  }

  /** When some weight of a converged point survives, every surviving entry
      is its raw value divided by the surviving sum. */
  lemma SurvivorsRescaled(n: nat, x: seq<real>, i: nat)
    requires n >= 1 && |x| == n && i < n
    requires Sum(ZeroSmall(x)) > 0.0 && SmallWeight <= x[i]
    ensures ProcessOutcome(n, Converged(x))[i] * Sum(ZeroSmall(x)) == x[i]
  {
    NormalisedIsDistribution(ZeroSmall(x));
  }

  /** Solver failure, an exception, or a converged point whose every entry
      is dust all give the uniform starting point. */
  lemma Fallbacks(n: nat, outcome: SolverOutcome)
    requires n >= 1
    requires outcome.Converged? ==> |outcome.x| == n
    requires !outcome.Converged? || forall i :: 0 <= i < n ==> outcome.x[i] < SmallWeight
    ensures ProcessOutcome(n, outcome) == InitialWeights(n)
  {
    if outcome.Converged? {
      SumOfConstant(ZeroSmall(outcome.x), 0.0);
    }
  }

  /** A single asset always gets the whole budget. */
  lemma SingleAssetIsFullyInvested(outcome: SolverOutcome)
    requires outcome.Converged? ==> |outcome.x| == 1
    ensures ProcessOutcome(1, outcome) == [1.0]
  {
    var w := ProcessOutcome(1, outcome);
    assert Sum(w) == w[0];
  }

  /** A feasible solver answer without dust (every entry is 0 or at least
      `1e-4`) is returned unchanged. */
  lemma CleanFeasibleAnswerUnchanged(p: Problem, x: seq<real>)
    requires |p.expectedReturns| >= 1
    requires Feasible(p, x)
    requires forall i :: 0 <= i < |x| ==> x[i] == 0.0 || SmallWeight <= x[i]
    ensures ProcessOutcome(|p.expectedReturns|, Converged(x)) == x
  {
    var z := ZeroSmall(x);
    assert z == x;
    NormalisedIsDistribution(z);
    var w := Normalised(z);
    forall i | 0 <= i < |x| ensures w[i] == x[i] {
      assert w[i] * 1.0 == x[i];
    }
  }

  /** When the cap is exactly `1/n`, the only feasible point is the uniform
      vector, and post-processing a feasible answer gives the uniform vector
      again (whether or not `1/n` counts as dust). */
  lemma TightCapGivesUniform(p: Problem, x: seq<real>)
    requires |p.expectedReturns| >= 1
    requires |p.expectedReturns| as real * p.maxWeight == 1.0
    requires Feasible(p, x)
    ensures x == InitialWeights(|p.expectedReturns|)
    ensures ProcessOutcome(|p.expectedReturns|, Converged(x)) == InitialWeights(|p.expectedReturns|)
  {
    var n := |p.expectedReturns|;
    AllAtCap(x, p.maxWeight);
    var u := InitialWeights(n);
    forall i | 0 <= i < n ensures u[i] == x[i] {
      Cancel(u[i], p.maxWeight, n as real);
    }
    assert u == x;
    if p.maxWeight < SmallWeight {
      var z := ZeroSmall(x);
      assert forall i :: 0 <= i < n ==> z[i] == 0.0;
      SumOfConstant(z, 0.0);
    } else {
      CleanFeasibleAnswerUnchanged(p, x);
    }
  }

  /** Renormalising after the dust is removed can push a weight above the
      cap by more than `1e-6`: 0.4 / 0.99995 is about 0.40002. */
  lemma RenormalisationCanExceedCap()
    ensures var p := Problem([0.0, 0.0, 0.0, 0.0], [[0.0, 0.0, 0.0, 0.0], [0.0, 0.0, 0.0, 0.0],
                                                     [0.0, 0.0, 0.0, 0.0], [0.0, 0.0, 0.0, 0.0]],
                             DefaultRiskFreeRate, DefaultMaxWeight, DefaultAlpha);
            var x := [0.4, 0.4, 0.19995, 0.00005];
            Feasible(p, x)
            && ProcessOutcome(4, Converged(x))[0] > p.maxWeight + 0.000001
  {
    var x := [0.4, 0.4, 0.19995, 0.00005];
    var z := ZeroSmall(x);
    assert z == [0.4, 0.4, 0.19995, 0.0];
    assert x[3..] == [0.00005] && [0.00005][1..] == [];
    assert z[3..] == [0.0] && [0.0][1..] == [];
    assert Sum(z[3..]) == 0.0 && Sum(x[3..]) == 0.00005;
    assert z[2..][1..] == z[3..] && x[2..][1..] == x[3..];
    assert Sum(z[2..]) == 0.19995 && Sum(x[2..]) == 0.2;
    assert z[1..][1..] == z[2..] && x[1..][1..] == x[2..];
    assert Sum(z[1..]) == 0.59995 && Sum(x[1..]) == 0.6;
    assert Sum(z) == 0.99995 && Sum(x) == 1.0;
    assert ProcessOutcome(4, Converged(x))[0] == 0.4 / 0.99995;
  }
}
