/** Per-asset risk metrics from a predicted price series: simple returns,
    their mean and population standard deviation, the Sharpe and Sortino
    ratios with their zero guards, and the maximum drawdown of the
    cumulative growth. */
module ReturnsRisk {
  import opened Wrappers
  import opened Stats

  datatype RiskMetrics = RiskMetrics(
    expectedReturn: real,
    risk: real,
    sharpeRatio: real,
    sortinoRatio: real,
    maxDrawdown: real)

  /** Fewer than two prices leave no return to reduce: numpy's `min` of the
      empty drawdown series raises. */
  datatype MetricsError = InsufficientData

  /** The fixed weekly risk-free rate of the metrics: 2% a year over 52 weeks. */
  const RiskFreeRate: real := 0.02 / 52.0

  predicate AllPositive(xs: seq<real>) {
    forall i :: 0 <= i < |xs| ==> 0.0 < xs[i]
  }

  predicate StrictlyIncreasing(xs: seq<real>) {
    forall i :: 0 <= i < |xs| - 1 ==> xs[i] < xs[i + 1]
  }

  predicate StrictlyDecreasing(xs: seq<real>) {
    forall i :: 0 <= i < |xs| - 1 ==> xs[i + 1] < xs[i]
  }

  /** The series in original units: the scaler's inverse transform applied to
      each prediction when a scaler is given, the predictions otherwise. */
  function OriginalUnits(predictions: seq<real>, scaler: Option<real -> real>): (u: seq<real>)
    ensures |u| == |predictions|
    ensures scaler.None? ==> u == predictions
    ensures scaler.Some? ==> forall i :: 0 <= i < |u| ==> u[i] == scaler.value(predictions[i])
  {
    match scaler
    case None => predictions
    case Some(inverse) => seq(|predictions|, i requires 0 <= i < |predictions| => inverse(predictions[i]))
  }

  /** `np.diff(p) / p[:-1]`: one simple return per consecutive pair of prices. */
  function Returns(p: seq<real>): (r: seq<real>)
    requires forall i :: 0 <= i < |p| - 1 ==> p[i] != 0.0
    ensures |r| == if |p| == 0 then 0 else |p| - 1
    ensures forall i :: 0 <= i < |r| ==> r[i] == (p[i + 1] - p[i]) / p[i]
  {
    if |p| < 2 then [] else [(p[1] - p[0]) / p[0]] + Returns(p[1..])
  }

  /** `1 + returns`. */
  function Growth(r: seq<real>): seq<real>
  {
    seq(|r|, i requires 0 <= i < |r| => 1.0 + r[i])
  }

  /** `np.cumprod`: the first entry is the first factor (no leading 1) and
      every later entry is the previous one times the next factor. */
  function CumProd(xs: seq<real>): (c: seq<real>)
    ensures |c| == |xs|
    ensures |xs| > 0 ==> c[0] == xs[0]
    ensures forall i :: 0 < i < |xs| ==> c[i] == Product(c[i - 1], xs[i])
  {
    if |xs| == 0 then []
    else if |xs| == 1 then [xs[0]]
    else
      var c := CumProd(xs[..|xs| - 1]);
      c + [Product(c[|c| - 1], xs[|xs| - 1])]
  }

  function Max(a: real, b: real): real { if a < b then b else a }

  /** `np.maximum.accumulate`: each entry is the larger of the previous
      running maximum and the current value, so the running maximum bounds
      the current value and never decreases. */
  function RunningMax(xs: seq<real>): (m: seq<real>)
    ensures |m| == |xs|
    ensures |xs| > 0 ==> m[0] == xs[0]
    ensures forall i :: 0 <= i < |xs| ==> xs[i] <= m[i]
    ensures forall i :: 0 < i < |xs| ==> m[i - 1] <= m[i]
    ensures forall i :: 0 <= i < |xs| ==> m[i] == xs[i] || (0 < i && m[i] == m[i - 1])
  {
    if |xs| == 0 then []
    else
      var prefix := xs[..|xs| - 1];
      var m := RunningMax(prefix);
      var last := if |m| == 0 then xs[0] else Max(m[|m| - 1], xs[|xs| - 1]);
      var r := m + [last];
      assert forall i :: 0 <= i < |prefix| ==> prefix[i] == xs[i];
      assert forall i :: 0 <= i < |m| ==> r[i] == m[i];
      assert forall i :: 0 < i < |m| ==> r[i] == xs[i] || r[i] == r[i - 1];
      assert |m| > 0 ==> last == xs[|xs| - 1] || last == r[|xs| - 2];
      r
  }

  /** The running maximum at `i` bounds every value up to `i` and is one of
      them. */
  lemma {:induction false} RunningMaxIsPrefixMax(xs: seq<real>, i: nat)
    requires i < |xs|
    ensures forall j :: 0 <= j <= i ==> xs[j] <= RunningMax(xs)[i]
    ensures exists j :: 0 <= j <= i && RunningMax(xs)[i] == xs[j]
  {
    var m := RunningMax(xs);
    if i == 0 {
      assert m[0] == xs[0];
    } else {
      RunningMaxIsPrefixMax(xs, i - 1);
      if m[i] != xs[i] {
        var j :| 0 <= j <= i - 1 && m[i - 1] == xs[j];
        assert m[i] == xs[j];
      }
    }
  }

  /** `cumulative / running_max - 1`: one plus the drawdown, times the peak
      so far, gives back the cumulative value. */
  function Drawdowns(cum: seq<real>): (dd: seq<real>)
    requires AllPositive(cum)
    ensures |dd| == |cum|
    ensures forall i :: 0 <= i < |cum| ==> Product(dd[i] + 1.0, RunningMax(cum)[i]) == cum[i]
  {
    var m := RunningMax(cum);
    var dd := seq(|cum|, i requires 0 <= i < |cum| => cum[i] / m[i] - 1.0);
    assert forall i :: 0 <= i < |cum| ==> Product(dd[i] + 1.0, m[i]) == cum[i] by {
      forall i | 0 <= i < |cum| ensures Product(dd[i] + 1.0, m[i]) == cum[i] {
        RelativeToPeak(cum[i], m[i]);
      }
    }
    dd
  }

  lemma RelativeToPeak(c: real, m: real)
    requires 0.0 < m
    ensures Product(c / m - 1.0 + 1.0, m) == c
  {
    QuotientFacts(c, m);
  }

  /** `np.min` of a non-empty series: a lower bound that is attained. */
  function SeqMin(xs: seq<real>): (r: real)
    requires |xs| > 0
    ensures forall i :: 0 <= i < |xs| ==> r <= xs[i]
    ensures exists i :: 0 <= i < |xs| && r == xs[i]
  {
    if |xs| == 1 then xs[0]
    else
      var rest := SeqMin(xs[1..]);
      if xs[0] <= rest then xs[0] else rest
  }

  /** `returns[returns < 0]`: exactly the negative returns, in order. */
  function Downside(r: seq<real>): (d: seq<real>)
    ensures |d| <= |r|
    ensures forall x :: x in d <==> x in r && x < 0.0
    ensures (forall i :: 0 <= i < |r| ==> r[i] < 0.0) ==> d == r
    ensures forall x :: multiset(d)[x] == if x < 0.0 then multiset(r)[x] else 0
  {
    if |r| == 0 then []
    else
      assert r == [r[0]] + r[1..];
      (if r[0] < 0.0 then [r[0]] else []) + Downside(r[1..])
  }

  /** The drawdown series of a return series whose growth factors are
      positive, and its minimum. */
  function MaxDrawdown(r: seq<real>): (dd: real)
    requires |r| > 0
    requires forall i :: 0 <= i < |r| ==> -1.0 < r[i]
    ensures -1.0 < dd <= 0.0
  {
    CumProdPositive(Growth(r));
    DrawdownsBounded(CumProd(Growth(r)));
    SeqMin(Drawdowns(CumProd(Growth(r))))
  }

  /** The standard deviation of the negative returns, or 0 when there is
      none. */
  function DownsideRisk(rs: seq<real>, sqrt: real -> real): (d: real)
    requires IsSqrt(sqrt)
    ensures 0.0 <= d
  {
    var downside := Downside(rs);
    if |downside| > 0 then Std(downside, sqrt) else 0.0
  }

  /** `x / d` guarded by `d != 0`: zero when `d` is zero, and otherwise
      the quotient, whose product with `d` gives back `x`. */
  function RatioIfNonZero(x: real, d: real): (r: real)
    ensures d == 0.0 ==> r == 0.0
    ensures d != 0.0 ==> Product(r, d) == x
  {
    if d != 0.0 then x / d else 0.0
  }

  /** `x / d` guarded by `d > 0`: zero otherwise, and when not zero it has
      the sign of `x`. */
  function RatioIfPositive(x: real, d: real): (r: real)
    ensures d <= 0.0 ==> r == 0.0
    ensures 0.0 < d ==> Product(r, d) == x
    ensures 0.0 < r ==> 0.0 < x
    ensures r < 0.0 ==> x < 0.0
  {
    if d > 0.0 then QuotientFacts(x, d); x / d else 0.0
  }

  /** The metrics of a series of at least two positive prices. The risk is
      non-negative; the Sharpe ratio is 0 when the risk is 0 and the excess
      return per unit of risk otherwise; the Sortino ratio is 0 or has the
      sign of the excess return; the maximum drawdown lies in (-1, 0]. */
  function Metrics(p: seq<real>, sqrt: real -> real): (m: RiskMetrics)
    requires IsSqrt(sqrt)
    requires AllPositive(p) && |p| >= 2
    ensures 0.0 <= m.risk
    ensures -1.0 < m.maxDrawdown <= 0.0
    ensures m.risk == 0.0 ==> m.sharpeRatio == 0.0
    ensures m.risk != 0.0 ==> Product(m.sharpeRatio, m.risk) == m.expectedReturn - RiskFreeRate
    ensures m.sortinoRatio > 0.0 ==> m.expectedReturn > RiskFreeRate
    ensures m.sortinoRatio < 0.0 ==> m.expectedReturn < RiskFreeRate
  {
    var rs := Returns(p);
    ReturnsAboveMinusOne(p);
    var expectedReturn := Mean(rs);
    var excess := expectedReturn - RiskFreeRate;
    var risk := Std(rs, sqrt);
    var sharpe := RatioIfNonZero(excess, risk);
    var sortino := RatioIfPositive(excess, DownsideRisk(rs, sqrt));
    RiskMetrics(expectedReturn, risk, sharpe, sortino, MaxDrawdown(rs))
  }

  /** `calculate_returns_risk`: the series is first brought back to original
      units; fewer than two prices are an error, otherwise the result is the
      metrics of the series. */
  function CalculateReturnsRisk(predictions: seq<real>, scaler: Option<real -> real>, sqrt: real -> real)
    : (res: Result<RiskMetrics, MetricsError>)
    requires IsSqrt(sqrt)
    requires |predictions| >= 2 ==> AllPositive(OriginalUnits(predictions, scaler))
    ensures res.Err? <==> |predictions| < 2
    ensures res.Ok? ==> res.value == Metrics(OriginalUnits(predictions, scaler), sqrt)
  {
    var p := OriginalUnits(predictions, scaler);
    if |p| < 2 then Err(InsufficientData) else Ok(Metrics(p, sqrt))
  }

  // ---------------------------------------------------------------------
  // Returns and cumulative growth

  lemma GrowthIsPriceRatio(a: real, b: real)
    requires 0.0 < a && 0.0 < b
    ensures 1.0 + (b - a) / a == b / a
    ensures 0.0 < b / a
  {
    assert (b - a) / a == b / a - a / a;
    assert a / a == 1.0;
    QuotientFacts(b, a);
  }

  /** With positive prices every growth factor `1 + r[i]` is the price
      ratio `p[i+1] / p[i]`, hence every return exceeds -1. */
  lemma ReturnsAboveMinusOne(p: seq<real>)
    requires AllPositive(p)
    ensures forall i :: 0 <= i < |Returns(p)| ==> 1.0 + Returns(p)[i] == p[i + 1] / p[i]
    ensures forall i :: 0 <= i < |Returns(p)| ==> -1.0 < Returns(p)[i]
  {
    forall i | 0 <= i < |Returns(p)|
      ensures 1.0 + Returns(p)[i] == p[i + 1] / p[i] && -1.0 < Returns(p)[i]
    {
      GrowthIsPriceRatio(p[i], p[i + 1]);
    }
  }

  lemma {:induction false} CumProdPositive(xs: seq<real>)
    requires AllPositive(xs)
    ensures AllPositive(CumProd(xs))
  {
    var c := CumProd(xs);
    forall i | 0 <= i < |xs| ensures 0.0 < c[i] {
      CumProdPositiveAt(xs, i);
    }
  }

  lemma {:induction false} CumProdPositiveAt(xs: seq<real>, i: nat)
    requires AllPositive(xs) && i < |xs|
    ensures 0.0 < CumProd(xs)[i]
  {
    if i > 0 {
      CumProdPositiveAt(xs, i - 1);
      ProductPositive(CumProd(xs)[i - 1], xs[i]);
    }
  }

  /** The cumulative product of the growth factors is the price relative to
      the first price: `cumulative[i] == p[i+1] / p[0]`. */
  lemma {:induction false} CumulativeIsPriceRatio(p: seq<real>, i: nat)
    requires AllPositive(p) && i + 1 < |p|
    ensures |CumProd(Growth(Returns(p)))| == |p| - 1
    ensures CumProd(Growth(Returns(p)))[i] == p[i + 1] / p[0]
  {
    ReturnsAboveMinusOne(p);
    var c := CumProd(Growth(Returns(p)));
    if i > 0 {
      CumulativeIsPriceRatio(p, i - 1);
      assert c[i] == Product(p[i] / p[0], p[i + 1] / p[i]);
      Telescope(p[0], p[i], p[i + 1]);
    }
  }

  lemma Telescope(a: real, b: real, c: real)
    requires 0.0 < a && 0.0 < b
    ensures Product(b / a, c / b) == c / a
  {}

  // ---------------------------------------------------------------------
  // Running maximum and drawdown

  /** Every drawdown lies in (-1, 0], the first one is zero (the cumulative
      product has no leading 1), and a drawdown is zero exactly at a new
      running maximum. */
  lemma DrawdownsBounded(cum: seq<real>)
    requires AllPositive(cum)
    ensures |Drawdowns(cum)| == |cum|
    ensures forall i :: 0 <= i < |cum| ==> -1.0 < Drawdowns(cum)[i] <= 0.0
    ensures forall i :: 0 <= i < |cum| ==> (Drawdowns(cum)[i] == 0.0 <==> cum[i] == RunningMax(cum)[i])
    ensures |cum| > 0 ==> Drawdowns(cum)[0] == 0.0
  {
    var m := RunningMax(cum);
    forall i | 0 <= i < |cum|
      ensures -1.0 < Drawdowns(cum)[i] <= 0.0
      ensures Drawdowns(cum)[i] == 0.0 <==> cum[i] == m[i]
    {
      QuotientFacts(cum[i], m[i]);
    }
    if |cum| > 0 {
      assert m[0] == cum[0];
      QuotientFacts(cum[0], m[0]);
    }
  }

  /** On a nondecreasing series the running maximum is the series itself. */
  lemma RunningMaxOfNondecreasing(xs: seq<real>)
    requires forall i, j :: 0 <= i <= j < |xs| ==> xs[i] <= xs[j]
    ensures RunningMax(xs) == xs
  {
    var m := RunningMax(xs);
    forall i | 0 <= i < |xs| ensures m[i] == xs[i] {
      RunningMaxIsPrefixMax(xs, i);
    }
  }

  /** Two prices give one return and one drawdown, which is zero: the
      maximum drawdown is 0 whatever the two prices are. */
  lemma TwoPricesNoDrawdown(p: seq<real>, sqrt: real -> real)
    requires IsSqrt(sqrt)
    requires AllPositive(p) && |p| == 2
    ensures Metrics(p, sqrt).maxDrawdown == 0.0
  {
    ReturnsAboveMinusOne(p);
    var cum := CumProd(Growth(Returns(p)));
    CumProdPositive(Growth(Returns(p)));
    DrawdownsBounded(cum);
    assert |Drawdowns(cum)| == 1;
  }

  /** Strictly increasing positive prices: every return is positive, the
      running maximum is the cumulative product itself, the maximum drawdown
      is 0 and the expected return is positive. */
  lemma IncreasingPrices(p: seq<real>, sqrt: real -> real)
    requires IsSqrt(sqrt)
    requires AllPositive(p) && StrictlyIncreasing(p) && |p| >= 2
    ensures forall i :: 0 <= i < |Returns(p)| ==> 0.0 < Returns(p)[i]
    ensures RunningMax(CumProd(Growth(Returns(p)))) == CumProd(Growth(Returns(p)))
    ensures Metrics(p, sqrt).maxDrawdown == 0.0
    ensures Metrics(p, sqrt).expectedReturn > 0.0
  {
    var r := Returns(p);
    forall i | 0 <= i < |r| ensures 0.0 < r[i] {
      QuotientFacts(p[i + 1] - p[i], p[i]);
    }
    ReturnsAboveMinusOne(p);
    var cum := CumProd(Growth(r));
    forall i, j | 0 <= i <= j < |cum| ensures cum[i] <= cum[j] {
      IncreasingBetween(p, i + 1, j + 1);
      CumulativeIsPriceRatio(p, i);
      CumulativeIsPriceRatio(p, j);
      QuotientMonotone(p[i + 1], p[j + 1], p[0]);
    }
    RunningMaxOfNondecreasing(cum);
    CumProdPositive(Growth(r));
    DrawdownsBounded(cum);
    var dds := Drawdowns(cum);
    var k :| 0 <= k < |dds| && SeqMin(dds) == dds[k];
  }

  lemma {:induction false} IncreasingBetween(p: seq<real>, i: nat, j: nat)
    requires StrictlyIncreasing(p) && i <= j < |p|
    ensures p[i] <= p[j]
  {
    if i < j { IncreasingBetween(p, i, j - 1); }
  }

  lemma QuotientMonotone(x: real, y: real, m: real)
    requires 0.0 < m && x <= y
    ensures x / m <= y / m
    ensures x < y ==> x / m < y / m
  {
    assert y / m - x / m == (y - x) / m;
    QuotientFacts(y - x, m);
  }

  /** Strictly decreasing positive prices: every return is negative, so the
      expected return is negative and the Sortino ratio is not positive. */
  lemma DecreasingPrices(p: seq<real>, sqrt: real -> real)
    requires IsSqrt(sqrt)
    requires AllPositive(p) && StrictlyDecreasing(p) && |p| >= 2
    ensures forall i :: 0 <= i < |Returns(p)| ==> Returns(p)[i] < 0.0
    ensures Metrics(p, sqrt).expectedReturn < 0.0
    ensures Metrics(p, sqrt).sortinoRatio <= 0.0
  {
    var r := Returns(p);
    forall i | 0 <= i < |r| ensures r[i] < 0.0 {
      QuotientFacts(p[i + 1] - p[i], p[i]);
    }
  }

  /** Strictly decreasing positive prices with at least three observations
      have a negative maximum drawdown: the second cumulative value is below
      the first, which is the running peak. With two prices the drawdown is
      0 instead (TwoPricesNoDrawdown). */
  lemma DecreasingPricesDrawdown(p: seq<real>, sqrt: real -> real)
    requires IsSqrt(sqrt)
    requires AllPositive(p) && StrictlyDecreasing(p) && |p| >= 3
    ensures Metrics(p, sqrt).maxDrawdown < 0.0
  {
    var r := Returns(p);
    ReturnsAboveMinusOne(p);
    var cum := CumProd(Growth(r));
    CumulativeIsPriceRatio(p, 0);
    CumulativeIsPriceRatio(p, 1);
    QuotientMonotone(p[2], p[1], p[0]);
    var m := RunningMax(cum);
    assert cum[1] < cum[0] <= m[1];
    CumProdPositive(Growth(r));
    DrawdownsBounded(cum);
    var dds := Drawdowns(cum);
    assert SeqMin(dds) <= dds[1] < 0.0;
  }

  // ---------------------------------------------------------------------
  // Sortino guard

  /** When all negative returns are equal (in particular when there is none
      or only one) the downside risk is 0 and so is the Sortino ratio. */
  lemma SortinoZeroWhenLossesEqual(p: seq<real>, sqrt: real -> real)
    requires IsSqrt(sqrt)
    requires AllPositive(p) && |p| >= 2
    requires forall i, j :: 0 <= i < |Returns(p)| && 0 <= j < |Returns(p)| &&
                            Returns(p)[i] < 0.0 && Returns(p)[j] < 0.0 ==>
                              Returns(p)[i] == Returns(p)[j]
    ensures DownsideRisk(Returns(p), sqrt) == 0.0
    ensures Metrics(p, sqrt).sortinoRatio == 0.0
  {
    var r := Returns(p);
    var d := Downside(r);
    if |d| > 0 {
      assert d[0] in d;
      forall k | 0 <= k < |d| ensures d[k] == d[0] {
        assert d[k] in d;
      }
      MeanOfConstant(d, d[0]);
    }
  }

  lemma MeanOfConstant(xs: seq<real>, c: real)
    requires |xs| > 0
    requires forall i :: 0 <= i < |xs| ==> xs[i] == c
    ensures Mean(xs) == c
  {
    SumOfConstant(xs, c);
    var n := |xs| as real;
    QuotientFacts(n * c, n);
    Cancel(Sum(xs) / n, c, n);
  }
}
