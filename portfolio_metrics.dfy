/** The portfolio primitives: expected return as a dot product, volatility
    as the square root of the quadratic form w' C w, and the Sharpe ratio
    with its zero-volatility guard. */
module PortfolioMetrics {
  import opened Stats

  /** The default weekly risk-free rate: 2% a year spread over 52 weeks. */
  const DefaultRiskFreeRate: real := 0.02 / 52.0

  function Dot(u: seq<real>, v: seq<real>): real
    requires |u| == |v|
  {
    if |u| == 0 then 0.0 else Product(u[0], v[0]) + Dot(u[1..], v[1..])
  }

  /** `m` is an n-by-n matrix given as a sequence of rows. */
  predicate IsMatrix(m: seq<seq<real>>, n: nat) {
    |m| == n && forall i :: 0 <= i < n ==> |m[i]| == n
  }

  /** `m w`, one dot product per row. */
  function MatVec(m: seq<seq<real>>, w: seq<real>): seq<real>
    requires IsMatrix(m, |w|)
  {
    seq(|m|, i requires 0 <= i < |m| => Dot(m[i], w))
  }

  /** `w' m w`, the portfolio variance. */
  function QuadForm(w: seq<real>, m: seq<seq<real>>): real
    requires IsMatrix(m, |w|)
  {
    Dot(w, MatVec(m, w))
  }

  /** A covariance matrix is positive semi-definite: no weight vector has a
      negative variance. */
  ghost predicate IsPsd(m: seq<seq<real>>) {
    forall v: seq<real> :: IsMatrix(m, |v|) ==> 0.0 <= QuadForm(v, m)
  }

  /** `np.sum(weights * expected_returns)`: a long-only portfolio of assets
      with non-negative expected returns has a non-negative return. */
  function PortfolioReturn(w: seq<real>, expectedReturns: seq<real>): (r: real)
    requires |w| == |expectedReturns|
    ensures (forall i :: 0 <= i < |w| ==> 0.0 <= w[i] && 0.0 <= expectedReturns[i]) ==> 0.0 <= r
  {
    DotNonNegative(w, expectedReturns);
    Dot(w, expectedReturns)
  }

  lemma {:induction false} DotNonNegative(u: seq<real>, v: seq<real>)
    requires |u| == |v|
    ensures (forall i :: 0 <= i < |u| ==> 0.0 <= u[i] && 0.0 <= v[i]) ==> 0.0 <= Dot(u, v)
  {
    if |u| > 0 && forall i :: 0 <= i < |u| ==> 0.0 <= u[i] && 0.0 <= v[i] {
      DotNonNegative(u[1..], v[1..]);
      ProductNonNegative(u[0], v[0]);
      assert forall i :: 0 <= i < |u| - 1 ==> u[1..][i] == u[i + 1] && v[1..][i] == v[i + 1];
    }
  }

  /** `np.sqrt(np.dot(weights.T, np.dot(cov_matrix, weights)))`: never
      negative when the variance is not, zero exactly when the variance is
      zero, and never negative at all for a positive semi-definite matrix. */
  function PortfolioVolatility(w: seq<real>, cov: seq<seq<real>>, sqrt: real -> real): (vol: real)
    requires IsSqrt(sqrt)
    requires IsMatrix(cov, |w|)
    ensures 0.0 <= QuadForm(w, cov) ==> 0.0 <= vol && (vol == 0.0 <==> QuadForm(w, cov) == 0.0)
    ensures IsPsd(cov) ==> 0.0 <= vol
  {
    SqrtZeroIff(sqrt, QuadForm(w, cov));
    sqrt(QuadForm(w, cov))
  }

  /** The guarded Sharpe ratio: exactly zero unless the volatility is
      positive; otherwise the excess return per unit of volatility, so its
      sign is the sign of the excess return. */
  function PortfolioSharpeRatio(w: seq<real>, expectedReturns: seq<real>, cov: seq<seq<real>>,
                                riskFreeRate: real, sqrt: real -> real): (s: real)
    requires IsSqrt(sqrt)
    requires |w| == |expectedReturns| && IsMatrix(cov, |w|)
    ensures PortfolioVolatility(w, cov, sqrt) <= 0.0 ==> s == 0.0
    ensures 0.0 < PortfolioVolatility(w, cov, sqrt) ==>
              s * PortfolioVolatility(w, cov, sqrt) == PortfolioReturn(w, expectedReturns) - riskFreeRate
    ensures 0.0 < s <==> 0.0 < PortfolioVolatility(w, cov, sqrt) && riskFreeRate < PortfolioReturn(w, expectedReturns)
    ensures s < 0.0 <==> 0.0 < PortfolioVolatility(w, cov, sqrt) && PortfolioReturn(w, expectedReturns) < riskFreeRate
  {
    var ret := PortfolioReturn(w, expectedReturns);
    var vol := PortfolioVolatility(w, cov, sqrt);
    if vol > 0.0 then
      QuotientFacts(ret - riskFreeRate, vol);
      (ret - riskFreeRate) / vol
    else
      0.0
  }

  lemma ProductMonotone(w: real, a: real, b: real)
    requires 0.0 <= w && a <= b
    ensures Product(w, a) <= Product(w, b)
  {
    ProductNonNegative(w, b - a);
    assert Product(w, b - a) == Product(w, b) - Product(w, a);
  }

  lemma ProductDistributes(a: real, b: real, c: real)
    ensures Product(a, b + c) == Product(a, b) + Product(a, c)
    ensures Product(a, b) == Product(b, a)
  {}

  lemma {:induction false} DotBounds(w: seq<real>, v: seq<real>, lo: real, hi: real)
    requires |w| == |v|
    requires forall i :: 0 <= i < |w| ==> 0.0 <= w[i]
    requires forall i :: 0 <= i < |v| ==> lo <= v[i] <= hi
    ensures Product(lo, Sum(w)) <= Dot(w, v) <= Product(hi, Sum(w))
  {
    if |w| == 0 {
      assert Product(lo, 0.0) == 0.0 && Product(hi, 0.0) == 0.0;
    } else {
      DotBounds(w[1..], v[1..], lo, hi);
      ProductMonotone(w[0], lo, v[0]);
      ProductMonotone(w[0], v[0], hi);
      ProductDistributes(lo, w[0], Sum(w[1..]));
      ProductDistributes(hi, w[0], Sum(w[1..]));
      ProductDistributes(w[0], lo, 0.0);
      ProductDistributes(w[0], hi, 0.0);
    }
  }

  /** A fully invested long-only portfolio earns between the lowest and the
      highest expected return of its assets. */
  lemma ReturnWithinAssetRange(w: seq<real>, expectedReturns: seq<real>, lo: real, hi: real)
    requires |w| == |expectedReturns|
    requires forall i :: 0 <= i < |w| ==> 0.0 <= w[i]
    requires Sum(w) == 1.0
    requires forall i :: 0 <= i < |expectedReturns| ==> lo <= expectedReturns[i] <= hi
    ensures lo <= PortfolioReturn(w, expectedReturns) <= hi
  {
    DotBounds(w, expectedReturns, lo, hi);
    assert Product(lo, 1.0) == lo && Product(hi, 1.0) == hi;
  }
}
