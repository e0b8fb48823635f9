# Portfolio analytics of `optim_funtions.py`, modelled in Dafny

The module computes per-asset risk metrics from a predicted price series and
builds portfolios from expected returns and a covariance matrix. It has four parts:

- **Per-asset metrics.** `calculate_returns_risk` computes:
  - simple returns;
  - their mean and population standard deviation;
  - the Sharpe and Sortino ratios, each with its own zero guard;
  - the maximum drawdown, from a cumulative product and its running maximum.
- **Portfolio primitives.** `portfolio_return`, `portfolio_volatility` and
  `portfolio_sharpe_ratio` are a dot product, the square root of a quadratic
  form, and a ratio guarded against zero volatility.
- **Mean-variance optimisation.** `mvo_optimization` has three pieces:
  - an objective: the negated Sharpe ratio smoothed by `1e-8`, plus a concentration penalty;
  - bounds and a starting point;
  - post-processing of the solver's answer. Weights below `1e-4` are zeroed
    in place and the rest renormalised. The uniform vector is the fallback.
- **Monte Carlo frontier.** `monte_carlo_simulation` has three steps:
  1. It normalises one random draw per trial.
  2. It stores each trial's weights, return, volatility and Sharpe ratio as a
     row of a results matrix.
  3. It scans that matrix for the first maximal Sharpe ratio and the first
     minimal volatility, and returns the (risk, return) cloud.

Modules, one file each:

- `Wrappers`: `Option` and `Result`.
- `Stats`: sum, mean, variance and standard deviation, normalisation, and the
  uniform vector. It also holds the real-arithmetic sign lemmas.
- `PortfolioMetrics`: the three primitives.
- `ReturnsRisk`: the per-asset metrics.
- `MeanVariance`: objective, bounds and the post-processing method over an `array`.
- `MonteCarlo`: the trial function, the specification `Simulate`, and the
  method that fills an `array2` results matrix and scans it with loops.

The model uses exact reals throughout. The square root is a parameter
`sqrt: real -> real` constrained by `Stats.IsSqrt`: on non-negative inputs it is
non-negative and squares back to its argument.

Behaviour of the code worth stating:

- **Return value.** `mvo_optimization` returns only the weight vector.
- **No bounds check.** Nothing checks `n * max_weight >= 1` before the
  solver runs. `MeanVariance.InitialGuessFeasibleIff` shows that the uniform
  starting point meets the bounds exactly when this inequality holds.
- **Two prices.** With exactly two prices the maximum drawdown is 0 even
  when the price falls, because the cumulative product has no leading 1
  (`ReturnsRisk.TwoPricesNoDrawdown`). From three strictly decreasing prices
  on it is negative (`ReturnsRisk.DecreasingPricesDrawdown`).
- **Weight cap.** The docstring of `mvo_optimization`
  (src/optim_funtions.py:54) promises `0 <= w_i <= max_weight`. Zeroing the
  dust weights and renormalising the rest can push a weight above
  `max_weight + 1e-6` (`MeanVariance.RenormalisationCanExceedCap`). Monte
  Carlo trial weights are never clipped to the cap at all
  (`MonteCarlo.TrialWeightsCanExceedCap`).

## Model

| member | source | states |
|---|---|---|
| Stats.Mean | src/optim_funtions.py:19 | the mean of all-positive returns is positive and of all-negative returns is negative |
| Stats.Variance | src/optim_funtions.py:20 | population variance is non-negative and zero exactly when every return equals the mean |
| Stats.Std | src/optim_funtions.py:20 | `np.std` is non-negative and zero exactly when all entries equal their mean |
| Stats.SqrtZeroIff | src/optim_funtions.py:20 | the square root of a non-negative value is non-negative and zero exactly at zero |
| Stats.NormalisedIsDistribution | src/optim_funtions.py:133 | dividing by a positive sum gives weights that sum to 1, are proportional to the input and stay non-negative |
| Stats.UniformIsDistribution | src/optim_funtions.py:75 | `[1/n] * n` has n entries, each times n is 1, and they sum to 1 |
| PortfolioMetrics.PortfolioReturn | src/optim_funtions.py:107-109 | the weighted sum of expected returns; a long-only portfolio of assets with non-negative expected returns earns a non-negative return |
| PortfolioMetrics.PortfolioVolatility | src/optim_funtions.py:111-113 | volatility is non-negative, and zero exactly when the variance `w' C w` is zero |
| PortfolioMetrics.PortfolioSharpeRatio | src/optim_funtions.py:115-119 | exactly 0 unless volatility is positive; otherwise a ratio that times the volatility gives the excess return, with the excess return's sign (both directions) |
| PortfolioMetrics.ReturnWithinAssetRange | src/optim_funtions.py:107-109 | a long-only, fully invested portfolio earns between its lowest and highest asset return |
| PortfolioMetrics.DotBounds | src/optim_funtions.py:109 | a non-negative weighting of values in `[lo, hi]` lies between `lo` and `hi` times the weight sum |
| ReturnsRisk.OriginalUnits | src/optim_funtions.py:10-13 | the series keeps its length; without a scaler it is the predictions, with one each entry is the inverse transform of its prediction |
| ReturnsRisk.Returns | src/optim_funtions.py:16 | one return fewer than prices, and entry i is `(p[i+1] - p[i]) / p[i]` |
| ReturnsRisk.ReturnsAboveMinusOne | src/optim_funtions.py:16 | with positive prices every growth factor `1 + r[i]` is `p[i+1] / p[i]`, so every return exceeds -1 |
| ReturnsRisk.CumProd | src/optim_funtions.py:31 | the cumulative product starts at the first factor (no leading 1), and each later entry is the previous one times the next factor |
| ReturnsRisk.CumProdPositive | src/optim_funtions.py:31 | a cumulative product of positive factors is positive |
| ReturnsRisk.CumulativeIsPriceRatio | src/optim_funtions.py:31 | the cumulative growth at i is the price ratio `p[i+1] / p[0]` |
| ReturnsRisk.RunningMax | src/optim_funtions.py:32 | the running maximum bounds the current value and never decreases; each entry is the current value or the previous maximum |
| ReturnsRisk.RunningMaxIsPrefixMax | src/optim_funtions.py:32 | the running maximum at i bounds every earlier value and equals one of them |
| ReturnsRisk.Drawdowns | src/optim_funtions.py:33 | one drawdown per cumulative value, and one plus the drawdown, times the peak so far, gives back the cumulative value |
| ReturnsRisk.DrawdownsBounded | src/optim_funtions.py:33 | every drawdown lies in (-1, 0]; the first is 0; a drawdown is 0 exactly at a running peak |
| ReturnsRisk.RunningMaxOfNondecreasing | src/optim_funtions.py:32 | on a nondecreasing series the running maximum is the series itself |
| ReturnsRisk.SeqMin | src/optim_funtions.py:34 | `np.min` is a lower bound of the series and one of its entries |
| ReturnsRisk.MaxDrawdown | src/optim_funtions.py:31-34 | with returns above -1 the maximum drawdown lies in (-1, 0] |
| ReturnsRisk.Downside | src/optim_funtions.py:26 | the downside series holds exactly the negative returns, each as often as it occurs among the returns; if every return is negative it is the whole series |
| ReturnsRisk.DownsideRisk | src/optim_funtions.py:27 | the downside risk is the downside std, or 0 when there is no negative return, and is never negative |
| ReturnsRisk.RatioIfNonZero | src/optim_funtions.py:23 | the guarded Sharpe division is 0 for a zero risk and otherwise times the risk gives the excess return |
| ReturnsRisk.RatioIfPositive | src/optim_funtions.py:28 | the guarded Sortino division is 0 unless the downside risk is positive, and when non-zero it has the excess return's sign |
| ReturnsRisk.Metrics | src/optim_funtions.py:16-34 | risk >= 0; Sharpe is 0 when risk is 0 and is the excess return per unit of risk otherwise; Sortino is 0 or has the excess return's sign; max drawdown in (-1, 0] |
| ReturnsRisk.CalculateReturnsRisk | src/optim_funtions.py:8-42 | fewer than two prices (after the optional inverse scaling) is an error, and otherwise the result is the metrics of the series |
| ReturnsRisk.TwoPricesNoDrawdown | src/optim_funtions.py:31-34 | any two positive prices give a maximum drawdown of exactly 0 |
| ReturnsRisk.IncreasingPrices | src/optim_funtions.py:16-34 | strictly increasing prices: all returns positive, running max equals the cumulative product, max drawdown 0, expected return > 0 |
| ReturnsRisk.DecreasingPrices | src/optim_funtions.py:16-34 | strictly decreasing prices: all returns negative, expected return < 0, Sortino ratio <= 0 |
| ReturnsRisk.DecreasingPricesDrawdown | src/optim_funtions.py:31-34 | strictly decreasing prices with at least three observations have a negative maximum drawdown |
| ReturnsRisk.SortinoZeroWhenLossesEqual | src/optim_funtions.py:26-28 | with no negative return, or with all negative returns equal (e.g. a single one), the downside risk and the Sortino ratio are exactly 0 |
| MeanVariance.Feasible | src/optim_funtions.py:68-72 | a point meeting the budget and box constraints has every weight at most 1, and exists only when `n * max_weight >= 1` |
| MeanVariance.SmoothedSharpe | src/optim_funtions.py:60-63 | the objective's ratio times `vol + 1e-8` is the excess return, and both its signs match the excess return's; at zero volatility there is no zero guard |
| MeanVariance.SmoothedSharpeAtMostGuarded | src/optim_funtions.py:63 | at positive volatility and non-negative excess return, the smoothed ratio lies between 0 and `portfolio_sharpe_ratio` |
| MeanVariance.Penalty | src/optim_funtions.py:65 | `alpha` times the sum of squared weights: never negative for `alpha >= 0`, and zero when `alpha` is |
| MeanVariance.NegativeSharpeRatio | src/optim_funtions.py:60-66 | with `alpha >= 0` the objective is negative only for a portfolio whose return beats the risk-free rate; with `alpha == 0` it is the negated smoothed ratio |
| MeanVariance.PenaltyBounds | src/optim_funtions.py:64-66 | on a feasible point with `alpha >= 0` the penalty lies in `[0, alpha]`, bounding the objective around the negated smoothed ratio |
| MeanVariance.SumOfSquares | src/optim_funtions.py:65 | the sum of squared weights is never negative |
| MeanVariance.SumOfSquaresBounds | src/optim_funtions.py:65 | the sum of squares of weights in `[0, 1]` lies between 0 and their sum |
| MeanVariance.InitialWeights | src/optim_funtions.py:75 | the starting point has n entries, each `1/n`, summing to 1 |
| MeanVariance.InitialGuessFeasibleIff | src/optim_funtions.py:69-75 | the starting point meets the bounds `(0, max_weight)` and the sum constraint exactly when `n * max_weight >= 1` |
| MeanVariance.ZeroSmall | src/optim_funtions.py:90 | an entry becomes 0 exactly when it is below `1e-4` (negatives included) and is kept otherwise |
| MeanVariance.ZeroSmallInPlace | src/optim_funtions.py:90 | the in-place masking leaves the array holding the masked old contents |
| MeanVariance.SumOf | src/optim_funtions.py:92 | the loop's total is the sum of the array |
| MeanVariance.DivideInPlace | src/optim_funtions.py:93 | the in-place division leaves each entry divided by the total |
| MeanVariance.MvoOptimization | src/optim_funtions.py:77-102 | the method returns the post-processed outcome, and it has n non-negative weights summing to 1 whatever the solver did |
| MeanVariance.ProcessOutcome | src/optim_funtions.py:87-102 | every outcome, success, failure or exception, yields n non-negative weights summing to 1 |
| MeanVariance.SurvivorsExistIff | src/optim_funtions.py:90-95 | some weight survives the dust mask (the sum at line 92 is positive) exactly when some raw entry is at least `1e-4` |
| MeanVariance.DustIsZeroed | src/optim_funtions.py:90-95 | a raw entry below `1e-4` is 0 in the output whenever some weight survives, and otherwise the output is the uniform fallback |
| MeanVariance.SurvivorsRescaled | src/optim_funtions.py:92-93 | with a positive surviving sum each surviving weight is its raw value divided by that sum |
| MeanVariance.Fallbacks | src/optim_funtions.py:94-102 | failure, an exception, or a converged answer that is all dust each give the uniform `1/n` vector |
| MeanVariance.SingleAssetIsFullyInvested | src/optim_funtions.py:87-102 | with one asset the result is `[1.0]` whatever the solver did |
| MeanVariance.CleanFeasibleAnswerUnchanged | src/optim_funtions.py:87-96 | a feasible answer with no dust is returned unchanged |
| MeanVariance.TightCapGivesUniform | src/optim_funtions.py:69-96 | when `n * max_weight == 1`, the only feasible point is uniform and the output is uniform too |
| MeanVariance.RenormalisationCanExceedCap | src/optim_funtions.py:90-93 | the feasible answer `[0.4, 0.4, 0.19995, 0.00005]` under cap 0.4 becomes a first weight above `0.4 + 1e-6` |
| MonteCarlo.TrialOf | src/optim_funtions.py:131-138 | a trial's weights are non-negative, sum to 1 and are proportional to the draw; its stored Sharpe is exactly `portfolio_sharpe_ratio` of those weights |
| MonteCarlo.Trials | src/optim_funtions.py:129-138 | one trial per draw, the t-th being the trial of draw t |
| MonteCarlo.Frontier | src/optim_funtions.py:171 | one pair per trial, whose first component is the trial's entry in the volatility column and whose second is its return |
| MonteCarlo.FirstArgMax | src/optim_funtions.py:147 | `np.argmax` picks a maximal entry with every earlier entry strictly smaller |
| MonteCarlo.FirstArgMin | src/optim_funtions.py:155 | `np.argmin` picks a minimal entry with every earlier entry strictly larger |
| MonteCarlo.FirstArgMaxUnique | src/optim_funtions.py:147 | any index with the first-maximum properties is the one `np.argmax` gives |
| MonteCarlo.FirstArgMinUnique | src/optim_funtions.py:155 | any index with the first-minimum properties is the one `np.argmin` gives |
| MonteCarlo.Simulate | src/optim_funtions.py:124-172 | the scan fails exactly when there is no trial |
| MonteCarlo.StoreTrial | src/optim_funtions.py:141-144 | row i receives the trial's weights, return, volatility and Sharpe, and no other row changes |
| MonteCarlo.FillResults | src/optim_funtions.py:127-144 | after the loop, row k of the results matrix holds trial k |
| MonteCarlo.ArgMaxColumn | src/optim_funtions.py:147 | the scan's index is the first maximum of the Sharpe column |
| MonteCarlo.ArgMinColumn | src/optim_funtions.py:155 | the scan's index is the first minimum of the volatility column |
| MonteCarlo.ReadRow | src/optim_funtions.py:149-152 | the portfolio read back is the one stored in the row |
| MonteCarlo.MonteCarloSimulation | src/optim_funtions.py:124-172 | filling the matrix, scanning it and reading rows back gives exactly `Simulate` of the draws |
| MonteCarlo.MaxSharpeIsFirstBest | src/optim_funtions.py:147-152 | the reported max-Sharpe portfolio is a trial that no trial beats and no earlier trial ties |
| MonteCarlo.MinVolatilityIsFirstBest | src/optim_funtions.py:155-169 | the reported min-volatility portfolio is a trial that no trial undercuts and no earlier trial ties |
| MonteCarlo.FrontierInSamplingOrder | src/optim_funtions.py:171 | the frontier holds one (risk, return) pair per draw, in sampling order |
| MonteCarlo.SelectedPortfoliosAreConsistent | src/optim_funtions.py:136-138 | both selected portfolios are fully invested and long-only, and report the return, volatility and Sharpe ratio of their own weights |
| MonteCarlo.SingleTrialSelectsIt | src/optim_funtions.py:147-171 | with one draw both selections are that trial and the frontier is its single pair |
| MonteCarlo.TrialWeightsCanExceedCap | src/optim_funtions.py:131-133 | the draw `[0.3, 0.1]`, inside `[0, 0.4)`, gives trial weights `[0.75, 0.25]`, so the first exceeds the cap 0.4 |

## Left out

- The SLSQP call to `scipy.optimize.minimize` (src/optim_funtions.py:77-85) is a foreign library. Its outcome is an input (`MeanVariance.SolverOutcome`). Nothing is claimed about optimality, and the bounds, constraint and objective are given as definitions only.
- The printed failure and exception messages at lines 98 and 101 are console output. They are carried in the outcome but not printed.
- `np.random.uniform` (line 131) is global randomness. The draws are a caller-supplied sequence, each in `[0, max_weight]` with a positive sum. numpy's half-open interval is treated as closed. A zero-sum draw over at least one asset, which would give NaN weights, is excluded. Because a valid draw needs a positive sum, zero assets with at least one trial are excluded too: there numpy divides an empty array and reports empty weights with return, volatility and Sharpe ratio all 0.
- `num_simulations` is the length of the draw sequence. `MonteCarlo.DefaultNumSimulations` only records the default.
- `scaler.inverse_transform` (line 11) is a foreign object. It becomes an optional pure function applied entrywise, and the reshape and flatten at lines 11 and 31 are not modelled.
- Floating-point rounding, NaN and infinity are not modelled. Exact reals are used, and the square root appears only through `Stats.IsSqrt`.
- ReturnsRisk.Metrics and ReturnsRisk.CalculateReturnsRisk use positive prices only for series of two or more prices; a shorter series is the error whatever its signs. A zero price before the last one is a divisor at line 16 and gives infinity or NaN. A zero last price is never a divisor, and the metrics stay finite, but the maximum drawdown leaves (-1, 0]: for `[1, 2, 0]` it is -1. With exactly two prices, as in `[1, 0]`, the drawdown is 0/0, which is NaN. A negative price also gives finite values, but then a return can fall to -1 or below and the maximum drawdown can leave (-1, 0] (for prices `[1, 2, -2]` it is -2). None of these cases is modelled. ReturnsRisk.Returns itself needs only the prices it divides by to be non-zero.
- ReturnsRisk.CalculateReturnsRisk groups every series of fewer than two prices, whatever the signs of its prices, under one error. numpy returns NaN for the mean of no returns and raises only at `np.min`. The shared error stands for both.
- PortfolioMetrics.PortfolioVolatility says nothing about a negative quadratic form, where numpy would give NaN; its contract is conditional on a non-negative variance or a positive semi-definite matrix.
- MeanVariance.SmoothedSharpe and MeanVariance.NegativeSharpeRatio require a non-negative quadratic form for the same reason.
- MeanVariance.MvoOptimization requires at least one asset. With none, `1/n` at line 75 raises before the `try` block, and that exception is not modelled.
- MeanVariance.MvoOptimization assumes the converged point has one entry per asset, as SLSQP's result does. It needs no shape condition on the covariance matrix: in the source an ill-shaped matrix makes the objective raise inside the `try`, and lines 100-102 turn that into the uniform fallback, the `Raised` outcome. The objective functions MeanVariance.SmoothedSharpe and MeanVariance.NegativeSharpeRatio require `WellShaped`, i.e. an n-by-n covariance matrix.
- The weight arrays of the two selected portfolios (lines 149 and 156) are views of rows of the results matrix. The model returns them as sequences, so that aliasing is not captured. The frontier at line 171 is a copy made by list indexing, as in the model.
- src/plot_results.py is plotting and printing (matplotlib, seaborn, pandas). Its random-portfolio loop repeats the Monte Carlo scan without the cap.
- elt/DownloadSourcePage.py and elt/ParseSourcePage.py are browser automation and HTML scraping, with no logic of the module's own.
