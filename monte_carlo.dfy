/** The Monte Carlo frontier scan: each random draw of weights is
    normalised into a trial portfolio whose return, volatility and guarded
    Sharpe ratio are stored as one row of a results matrix; the matrix is
    then scanned for the first trial of maximal Sharpe ratio and the first
    trial of minimal volatility. The draws of `np.random.uniform` are an
    input. */
module MonteCarlo {
  import opened Wrappers
  import opened Stats
  import opened PortfolioMetrics

  /** One stored trial: its weights and the three metrics of its row. */
  datatype Portfolio = Portfolio(weights: seq<real>, ret: real, risk: real, sharpe: real)

  /** The returned dictionary: the two selected trials and the cloud of
      (risk, return) pairs, one per trial in sampling order. */
  datatype FrontierReport = FrontierReport(
    maxSharpe: Portfolio,
    minVolatility: Portfolio,
    efficientFrontier: seq<(real, real)>)

  /** `np.argmax` and `np.argmin` of an empty column raise. */
  datatype SimulationError = NoTrials

  const DefaultNumSimulations: nat := 50000

  /** A draw of `np.random.uniform(0, max_weight, n)`: n entries in
      `[0, maxWeight]`, not all zero. */
  predicate ValidDraw(d: seq<real>, n: nat, maxWeight: real) {
    |d| == n
    && Sum(d) > 0.0
    && forall i :: 0 <= i < |d| ==> 0.0 <= d[i] <= maxWeight
  }

  predicate ValidDraws(draws: seq<seq<real>>, n: nat, maxWeight: real) {
    forall t :: 0 <= t < |draws| ==> ValidDraw(draws[t], n, maxWeight)
  }

  // ---------------------------------------------------------------------
  // One trial

  /** One iteration of the loop: the draw divided by its sum, then its
      return, volatility and the inline guarded Sharpe ratio, which is
      exactly `portfolio_sharpe_ratio` of the trial's weights. The weights
      are non-negative, sum to one and are proportional to the draw. */
  function TrialOf(expectedReturns: seq<real>, cov: seq<seq<real>>, riskFreeRate: real,
                   draw: seq<real>, sqrt: real -> real): (t: Portfolio)
    requires IsSqrt(sqrt) && IsMatrix(cov, |expectedReturns|)
    requires |draw| == |expectedReturns| && Sum(draw) > 0.0
    requires forall i :: 0 <= i < |draw| ==> 0.0 <= draw[i]
    ensures |t.weights| == |draw| && Sum(t.weights) == 1.0
    ensures forall i :: 0 <= i < |draw| ==> 0.0 <= t.weights[i]
    ensures forall i :: 0 <= i < |draw| ==> t.weights[i] * Sum(draw) == draw[i]
    ensures t.ret == PortfolioReturn(t.weights, expectedReturns)
    ensures t.risk == PortfolioVolatility(t.weights, cov, sqrt)
    ensures t.sharpe == PortfolioSharpeRatio(t.weights, expectedReturns, cov, riskFreeRate, sqrt)
  {
    NormalisedIsDistribution(draw);
    var w := Normalised(draw);
    var ret := PortfolioReturn(w, expectedReturns);
    var vol := PortfolioVolatility(w, cov, sqrt);
    var sharpe := if vol > 0.0 then (ret - riskFreeRate) / vol else 0.0;
    Portfolio(w, ret, vol, sharpe)
  }

  /** The trials of all draws, in sampling order. */
  function Trials(expectedReturns: seq<real>, cov: seq<seq<real>>, riskFreeRate: real,
                  draws: seq<seq<real>>, maxWeight: real, sqrt: real -> real): (ts: seq<Portfolio>)
    requires IsSqrt(sqrt) && IsMatrix(cov, |expectedReturns|)
    requires ValidDraws(draws, |expectedReturns|, maxWeight)
    ensures |ts| == |draws|
    ensures forall t :: 0 <= t < |draws| ==> ts[t] == TrialOf(expectedReturns, cov, riskFreeRate, draws[t], sqrt)
  {
    seq(|draws|, t requires 0 <= t < |draws| => TrialOf(expectedReturns, cov, riskFreeRate, draws[t], sqrt))
  }

  function Sharpes(ts: seq<Portfolio>): seq<real>
  {
    seq(|ts|, t requires 0 <= t < |ts| => ts[t].sharpe)
  }

  function Risks(ts: seq<Portfolio>): seq<real>
  {
    seq(|ts|, t requires 0 <= t < |ts| => ts[t].risk)
  }

  /** `results[:, [n + 1, n]]`: the (risk, return) pair of every trial. */
  function Frontier(ts: seq<Portfolio>): (f: seq<(real, real)>)
    ensures |f| == |ts|
    ensures forall t :: 0 <= t < |ts| ==> f[t].0 == Risks(ts)[t] && f[t].1 == ts[t].ret
  {
    seq(|ts|, t requires 0 <= t < |ts| => (ts[t].risk, ts[t].ret))
  }

  // ---------------------------------------------------------------------
  // First-occurrence selection

  /** `np.argmax`: an index of a maximal entry, and no earlier entry is as
      large, so ties go to the first occurrence. */
  function FirstArgMax(xs: seq<real>): (k: nat)
    requires |xs| > 0
    ensures k < |xs|
    ensures forall j :: 0 <= j < |xs| ==> xs[j] <= xs[k]
    ensures forall j :: 0 <= j < k ==> xs[j] < xs[k]
  {
    if |xs| == 1 then 0
    else
      var k := FirstArgMax(xs[..|xs| - 1]);
      assert forall j :: 0 <= j < |xs| - 1 ==> xs[..|xs| - 1][j] == xs[j];
      if xs[k] < xs[|xs| - 1] then |xs| - 1 else k
  }

  /** `np.argmin`: an index of a minimal entry, and no earlier entry is as
      small. */
  function FirstArgMin(xs: seq<real>): (k: nat)
    requires |xs| > 0
    ensures k < |xs|
    ensures forall j :: 0 <= j < |xs| ==> xs[k] <= xs[j]
    ensures forall j :: 0 <= j < k ==> xs[k] < xs[j]
  {
    if |xs| == 1 then 0
    else
      var k := FirstArgMin(xs[..|xs| - 1]);
      assert forall j :: 0 <= j < |xs| - 1 ==> xs[..|xs| - 1][j] == xs[j];
      if xs[|xs| - 1] < xs[k] then |xs| - 1 else k
  }

  /** The first-occurrence maximum is unique: any index of a maximal entry
      with no earlier entry as large is the one `np.argmax` returns. */
  lemma FirstArgMaxUnique(xs: seq<real>, k: nat)
    requires k < |xs|
    requires forall j :: 0 <= j < |xs| ==> xs[j] <= xs[k]
    requires forall j :: 0 <= j < k ==> xs[j] < xs[k]
    ensures FirstArgMax(xs) == k
  {
  }

  lemma FirstArgMinUnique(xs: seq<real>, k: nat)
    requires k < |xs|
    requires forall j :: 0 <= j < |xs| ==> xs[k] <= xs[j]
    requires forall j :: 0 <= j < k ==> xs[k] < xs[j]
    ensures FirstArgMin(xs) == k
  {
  }

  // ---------------------------------------------------------------------
  // The whole scan

  /** What `monte_carlo_simulation` returns, as a function of the draws:
      no draw is an error; otherwise the first trial of maximal Sharpe
      ratio, the first trial of minimal volatility and the frontier. */
  function Simulate(expectedReturns: seq<real>, cov: seq<seq<real>>, riskFreeRate: real,
                    draws: seq<seq<real>>, maxWeight: real, sqrt: real -> real)
    : (res: Result<FrontierReport, SimulationError>)
    requires IsSqrt(sqrt) && IsMatrix(cov, |expectedReturns|)
    requires ValidDraws(draws, |expectedReturns|, maxWeight)
    ensures res.Err? <==> |draws| == 0
  {
    if |draws| == 0 then Err(NoTrials)
    else
      var ts := Trials(expectedReturns, cov, riskFreeRate, draws, maxWeight, sqrt);
      Ok(FrontierReport(ts[FirstArgMax(Sharpes(ts))], ts[FirstArgMin(Risks(ts))], Frontier(ts)))
  }

  /** Column `c` of the results matrix, top to bottom. */
  function Column(m: array2<real>, c: nat): seq<real>
    requires c < m.Length1
    reads m
  {
    seq(m.Length0, k requires 0 <= k < m.Length0 reads m => m[k, c])
  }

  /** The stored weights of row `r`. */
  function RowWeights(m: array2<real>, r: nat, n: nat): seq<real>
    requires r < m.Length0 && n <= m.Length1
    reads m
  {
    seq(n, j requires 0 <= j < n reads m => m[r, j])
  }

  /** Row `r` of the results matrix holds trial `t`: its weights in the
      first `n` columns, then its return, volatility and Sharpe ratio. */
  ghost predicate RowHolds(m: array2<real>, r: nat, n: nat, t: Portfolio)
    reads m
  {
    r < m.Length0 && m.Length1 == n + 3 && |t.weights| == n
    && (forall j :: 0 <= j < n ==> m[r, j] == t.weights[j])
    && m[r, n] == t.ret && m[r, n + 1] == t.risk && m[r, n + 2] == t.sharpe
  }

  /** `results[i, :n] = weights` and the three metric columns of row `i`. */
  method StoreTrial(m: array2<real>, r: nat, n: nat, t: Portfolio)
    requires r < m.Length0 && m.Length1 == n + 3 && |t.weights| == n
    modifies m
    ensures RowHolds(m, r, n, t)
    ensures forall k, j :: 0 <= k < m.Length0 && 0 <= j < m.Length1 && k != r ==> m[k, j] == old(m[k, j])
  {
    for j := 0 to n
      invariant forall j' :: 0 <= j' < j ==> m[r, j'] == t.weights[j']
      invariant forall k, j' :: 0 <= k < m.Length0 && 0 <= j' < m.Length1 && k != r ==> m[k, j'] == old(m[k, j'])
    {
      m[r, j] := t.weights[j];
    }
    m[r, n] := t.ret;
    m[r, n + 1] := t.risk;
    m[r, n + 2] := t.sharpe;
  }

  /** The argmax scan of one column: the first row of maximal value. */
  method ArgMaxColumn(m: array2<real>, c: nat) returns (best: nat)
    requires c < m.Length1 && m.Length0 > 0
    ensures best == FirstArgMax(Column(m, c))
  {
    best := 0;
    for r := 1 to m.Length0
      invariant best < r
      invariant forall j :: 0 <= j < r ==> m[j, c] <= m[best, c]
      invariant forall j :: 0 <= j < best ==> m[j, c] < m[best, c]
    {
      if m[best, c] < m[r, c] {
        best := r;
      }
    }
    FirstArgMaxUnique(Column(m, c), best);
  }

  /** The argmin scan of one column: the first row of minimal value. */
  method ArgMinColumn(m: array2<real>, c: nat) returns (best: nat)
    requires c < m.Length1 && m.Length0 > 0
    ensures best == FirstArgMin(Column(m, c))
  {
    best := 0;
    for r := 1 to m.Length0
      invariant best < r
      invariant forall j :: 0 <= j < r ==> m[best, c] <= m[j, c]
      invariant forall j :: 0 <= j < best ==> m[best, c] < m[j, c]
    {
      if m[r, c] < m[best, c] {
        best := r;
      }
    }
    FirstArgMinUnique(Column(m, c), best);
  }

  /** The loop of `monte_carlo_simulation`: a fresh `num x (n + 3)` matrix
      whose row `i` holds trial `i`. */
  method FillResults(expectedReturns: seq<real>, cov: seq<seq<real>>, riskFreeRate: real,
                     draws: seq<seq<real>>, maxWeight: real, sqrt: real -> real)
    returns (results: array2<real>)
    requires IsSqrt(sqrt) && IsMatrix(cov, |expectedReturns|)
    requires ValidDraws(draws, |expectedReturns|, maxWeight)
    ensures fresh(results)
    ensures results.Length0 == |draws| && results.Length1 == |expectedReturns| + 3
    ensures forall k :: 0 <= k < |draws| ==>
              RowHolds(results, k, |expectedReturns|,
                       Trials(expectedReturns, cov, riskFreeRate, draws, maxWeight, sqrt)[k])
  {
    var n := |expectedReturns|;
    var ts := Trials(expectedReturns, cov, riskFreeRate, draws, maxWeight, sqrt);
    results := new real[|draws|, n + 3];
    for i := 0 to |draws|
      invariant forall k :: 0 <= k < i ==> RowHolds(results, k, n, ts[k])
    {
      StoreTrial(results, i, n, ts[i]);
    }
  }

  /** `monte_carlo_simulation`: fills the results matrix one row per draw,
      then scans its Sharpe column for the first maximum and its volatility
      column for the first minimum and reads the selected rows back. The
      result is exactly `Simulate` of the draws. */
  method MonteCarloSimulation(expectedReturns: seq<real>, cov: seq<seq<real>>, riskFreeRate: real,
                              draws: seq<seq<real>>, maxWeight: real, sqrt: real -> real)
    returns (res: Result<FrontierReport, SimulationError>)
    requires IsSqrt(sqrt) && IsMatrix(cov, |expectedReturns|)
    requires ValidDraws(draws, |expectedReturns|, maxWeight)
    ensures res == Simulate(expectedReturns, cov, riskFreeRate, draws, maxWeight, sqrt)
  {
    var n := |expectedReturns|;
    var num := |draws|;
    var results := FillResults(expectedReturns, cov, riskFreeRate, draws, maxWeight, sqrt);
    if num == 0 {
      return Err(NoTrials);
    }
    ghost var ts := Trials(expectedReturns, cov, riskFreeRate, draws, maxWeight, sqrt);
    ColumnsHoldTrials(results, n, ts);
    var best := ArgMaxColumn(results, n + 2);
    var safest := ArgMinColumn(results, n + 1);
    var maxSharpe := ReadRow(results, best, n);
    RowDeterminesTrial(results, best, n, maxSharpe, ts[best]);
    var minVolatility := ReadRow(results, safest, n);
    RowDeterminesTrial(results, safest, n, minVolatility, ts[safest]);
    var frontier := seq(num, k requires 0 <= k < num reads results => (results[k, n + 1], results[k, n]));
    assert frontier == Frontier(ts);
    res := Ok(FrontierReport(maxSharpe, minVolatility, frontier));
  }

  /** A matrix whose rows hold the trials has their Sharpe ratios and risks
      as its last two columns. */
  lemma ColumnsHoldTrials(m: array2<real>, n: nat, ts: seq<Portfolio>)
    requires m.Length0 == |ts| && m.Length1 == n + 3
    requires forall k :: 0 <= k < |ts| ==> RowHolds(m, k, n, ts[k])
    ensures Column(m, n + 2) == Sharpes(ts)
    ensures Column(m, n + 1) == Risks(ts)
  {
    forall k | 0 <= k < |ts|
      ensures Column(m, n + 2)[k] == Sharpes(ts)[k] && Column(m, n + 1)[k] == Risks(ts)[k]
    {
      assert RowHolds(m, k, n, ts[k]);
    }
  }

  /** A row holds at most one trial. */
  lemma RowDeterminesTrial(m: array2<real>, r: nat, n: nat, t: Portfolio, u: Portfolio)
    requires RowHolds(m, r, n, t) && RowHolds(m, r, n, u)
    ensures t == u
  {
    assert t.weights == u.weights;
  }

  /** The trial stored in row `r`. */
  method ReadRow(m: array2<real>, r: nat, n: nat) returns (t: Portfolio)
    requires r < m.Length0 && m.Length1 == n + 3
    ensures RowHolds(m, r, n, t)
  {
    t := Portfolio(RowWeights(m, r, n), m[r, n], m[r, n + 1], m[r, n + 2]);
  }

  // ---------------------------------------------------------------------
  // Properties of the selection

  /** The reported maximum-Sharpe portfolio is a trial whose Sharpe ratio no
      trial exceeds and no earlier trial equals. */
  lemma MaxSharpeIsFirstBest(expectedReturns: seq<real>, cov: seq<seq<real>>, riskFreeRate: real,
                             draws: seq<seq<real>>, maxWeight: real, sqrt: real -> real)
    requires IsSqrt(sqrt) && IsMatrix(cov, |expectedReturns|)
    requires ValidDraws(draws, |expectedReturns|, maxWeight)
    requires |draws| > 0
    ensures var ts := Trials(expectedReturns, cov, riskFreeRate, draws, maxWeight, sqrt);
            var report := Simulate(expectedReturns, cov, riskFreeRate, draws, maxWeight, sqrt).value;
            exists k :: 0 <= k < |ts| && report.maxSharpe == ts[k]
              && (forall j :: 0 <= j < |ts| ==> ts[j].sharpe <= ts[k].sharpe)
              && (forall j :: 0 <= j < k ==> ts[j].sharpe < ts[k].sharpe)
  {
    var ts := Trials(expectedReturns, cov, riskFreeRate, draws, maxWeight, sqrt);
    var s := Sharpes(ts);
    var best := FirstArgMax(s);
    assert forall j :: 0 <= j < |ts| ==> s[j] == ts[j].sharpe;
    assert Simulate(expectedReturns, cov, riskFreeRate, draws, maxWeight, sqrt).value.maxSharpe == ts[best];
  }

  /** The reported minimum-volatility portfolio is a trial whose risk no
      trial undercuts and no earlier trial equals. */
  lemma MinVolatilityIsFirstBest(expectedReturns: seq<real>, cov: seq<seq<real>>, riskFreeRate: real,
                                 draws: seq<seq<real>>, maxWeight: real, sqrt: real -> real)
    requires IsSqrt(sqrt) && IsMatrix(cov, |expectedReturns|)
    requires ValidDraws(draws, |expectedReturns|, maxWeight)
    requires |draws| > 0
    ensures var ts := Trials(expectedReturns, cov, riskFreeRate, draws, maxWeight, sqrt);
            var report := Simulate(expectedReturns, cov, riskFreeRate, draws, maxWeight, sqrt).value;
            exists k :: 0 <= k < |ts| && report.minVolatility == ts[k]
              && (forall j :: 0 <= j < |ts| ==> ts[k].risk <= ts[j].risk)
              && (forall j :: 0 <= j < k ==> ts[k].risk < ts[j].risk)
  {
    var ts := Trials(expectedReturns, cov, riskFreeRate, draws, maxWeight, sqrt);
    var r := Risks(ts);
    var safest := FirstArgMin(r);
    assert forall j :: 0 <= j < |ts| ==> r[j] == ts[j].risk;
    assert Simulate(expectedReturns, cov, riskFreeRate, draws, maxWeight, sqrt).value.minVolatility == ts[safest];
  }

  /** The frontier holds one (risk, return) pair per trial, in sampling
      order. */
  lemma FrontierInSamplingOrder(expectedReturns: seq<real>, cov: seq<seq<real>>, riskFreeRate: real,
                                draws: seq<seq<real>>, maxWeight: real, sqrt: real -> real)
    requires IsSqrt(sqrt) && IsMatrix(cov, |expectedReturns|)
    requires ValidDraws(draws, |expectedReturns|, maxWeight)
    requires |draws| > 0
    ensures var report := Simulate(expectedReturns, cov, riskFreeRate, draws, maxWeight, sqrt).value;
            |report.efficientFrontier| == |draws|
            && forall j :: 0 <= j < |draws| ==>
                 var t := TrialOf(expectedReturns, cov, riskFreeRate, draws[j], sqrt);
                 report.efficientFrontier[j] == (t.risk, t.ret)
  {
  }

  /** With a single draw both selections are that one trial. */
  lemma SingleTrialSelectsIt(expectedReturns: seq<real>, cov: seq<seq<real>>, riskFreeRate: real,
                             draw: seq<real>, maxWeight: real, sqrt: real -> real)
    requires IsSqrt(sqrt) && IsMatrix(cov, |expectedReturns|)
    requires ValidDraw(draw, |expectedReturns|, maxWeight)
    ensures var report := Simulate(expectedReturns, cov, riskFreeRate, [draw], maxWeight, sqrt).value;
            var t := TrialOf(expectedReturns, cov, riskFreeRate, draw, sqrt);
            report.maxSharpe == t && report.minVolatility == t && report.efficientFrontier == [(t.risk, t.ret)]
  {
    var ts := Trials(expectedReturns, cov, riskFreeRate, [draw], maxWeight, sqrt);
    assert |Sharpes(ts)| == 1 && |Risks(ts)| == 1;
  }

  /** The selected portfolios are fully invested and long-only, and each
      reports the metrics of its own weights. */
  lemma SelectedPortfoliosAreConsistent(expectedReturns: seq<real>, cov: seq<seq<real>>, riskFreeRate: real,
                                        draws: seq<seq<real>>, maxWeight: real, sqrt: real -> real)
    requires IsSqrt(sqrt) && IsMatrix(cov, |expectedReturns|)
    requires ValidDraws(draws, |expectedReturns|, maxWeight)
    requires |draws| > 0
    ensures var report := Simulate(expectedReturns, cov, riskFreeRate, draws, maxWeight, sqrt).value;
            forall t :: t in [report.maxSharpe, report.minVolatility] ==>
              |t.weights| == |expectedReturns| && Sum(t.weights) == 1.0
              && (forall i :: 0 <= i < |t.weights| ==> 0.0 <= t.weights[i])
              && t.ret == PortfolioReturn(t.weights, expectedReturns)
              && t.risk == PortfolioVolatility(t.weights, cov, sqrt)
              && t.sharpe == PortfolioSharpeRatio(t.weights, expectedReturns, cov, riskFreeRate, sqrt)
  {
    var ts := Trials(expectedReturns, cov, riskFreeRate, draws, maxWeight, sqrt);
    var best := FirstArgMax(Sharpes(ts));
    var safest := FirstArgMin(Risks(ts));
    assert TrialOf(expectedReturns, cov, riskFreeRate, draws[best], sqrt) == ts[best];
    assert TrialOf(expectedReturns, cov, riskFreeRate, draws[safest], sqrt) == ts[safest];
  }

  /** The trial weights are not clipped again after normalisation, so they
      can exceed the cap: the draw [0.3, 0.1] under a cap of 0.4 becomes
      the weights [0.75, 0.25]. */
  lemma TrialWeightsCanExceedCap(expectedReturns: seq<real>, cov: seq<seq<real>>, sqrt: real -> real)
    requires IsSqrt(sqrt) && IsMatrix(cov, 2) && |expectedReturns| == 2
    ensures ValidDraw([0.3, 0.1], 2, 0.4)
    ensures TrialOf(expectedReturns, cov, DefaultRiskFreeRate, [0.3, 0.1], sqrt).weights == [0.75, 0.25]
  {
    var d := [0.3, 0.1];
    assert Sum(d[1..]) == 0.1;
    assert Sum(d) == 0.4;
    var w := TrialOf(expectedReturns, cov, DefaultRiskFreeRate, d, sqrt).weights;
    assert w[0] * 0.4 == 0.3 && w[1] * 0.4 == 0.1;
  }
}
