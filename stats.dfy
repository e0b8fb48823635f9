/** Sequence arithmetic over exact reals shared by the portfolio modules:
    numpy's sum, mean and population standard deviation, weight
    normalisation and the uniform weight vector. The square root is supplied
    by the caller and is only known through IsSqrt. */
module Stats {

  /** `sqrt` is the non-negative square root on the non-negative reals. */
  ghost predicate IsSqrt(sqrt: real -> real) {
    forall x: real :: 0.0 <= x ==> 0.0 <= sqrt(x) && Square(sqrt(x)) == x
  }

  lemma SqrtZeroIff(sqrt: real -> real, x: real)
    requires IsSqrt(sqrt)
    ensures 0.0 <= x ==> 0.0 <= sqrt(x)
    ensures 0.0 <= x ==> (sqrt(x) == 0.0 <==> x == 0.0)
  {
    if 0.0 <= x {
      SquareFacts(sqrt(x));
    }
  }

  // The solver's nonlinear reasoning about reals is fragile, so the sign
  // facts the model needs about products and quotients are proved once here.

  function Product(a: real, b: real): real { a * b }

  function Square(d: real): real { Product(d, d) }

  lemma ProductPositive(a: real, b: real)
    requires 0.0 < a && 0.0 < b
    ensures 0.0 < Product(a, b)
  {}

  lemma ProductNonNegative(a: real, b: real)
    requires 0.0 <= a && 0.0 <= b
    ensures 0.0 <= Product(a, b)
  {
    if 0.0 < a && 0.0 < b { ProductPositive(a, b); }
  }

  lemma SquareFacts(d: real)
    ensures 0.0 <= Square(d)
    ensures Square(d) == 0.0 <==> d == 0.0
  {
    if d > 0.0 {
      ProductPositive(d, d);
    } else if d < 0.0 {
      ProductPositive(-d, -d);
      assert Product(-d, -d) == Product(d, d);
    }
  }

  /** For a positive `m`: `x / m` is at most one when `x <= m`, below one
      when `x < m`, and positive or negative with `x`. */
  lemma QuotientFacts(x: real, m: real)
    requires 0.0 < m
    ensures x <= m ==> x / m <= 1.0
    ensures x < m ==> x / m < 1.0
    ensures x == m ==> x / m == 1.0
    ensures 0.0 < x ==> 0.0 < x / m
    ensures x < 0.0 ==> x / m < 0.0
    ensures (x / m) * m == x
  {
    var q := x / m;
    assert q * m == x;
    if q > 1.0 {
      ProductPositive(q - 1.0, m);
      assert (q - 1.0) * m == q * m - m;
    }
    if q == 1.0 {
      assert x == m;
    }
  }

  function Sum(xs: seq<real>): real
  {
    if |xs| == 0 then 0.0 else xs[0] + Sum(xs[1..])
  }

  lemma {:induction false} SumNonNegative(xs: seq<real>)
    requires forall i :: 0 <= i < |xs| ==> 0.0 <= xs[i]
    ensures 0.0 <= Sum(xs)
  {
    if |xs| > 0 {
      SumNonNegative(xs[1..]);
    }
  }

  lemma {:induction false} SumPositive(xs: seq<real>)
    requires |xs| > 0
    requires forall i :: 0 <= i < |xs| ==> 0.0 < xs[i]
    ensures 0.0 < Sum(xs)
  {
    SumNonNegative(xs[1..]);
  }

  lemma {:induction false} SumNegative(xs: seq<real>)
    requires |xs| > 0
    requires forall i :: 0 <= i < |xs| ==> xs[i] < 0.0
    ensures Sum(xs) < 0.0
  {
    if |xs| > 1 {
      SumNegative(xs[1..]);
    }
  }

  /** Terms bounded by `cap` whose sum reaches `|xs| * cap` all equal `cap`. */
  lemma {:induction false} AllAtCap(xs: seq<real>, cap: real)
    requires forall i :: 0 <= i < |xs| ==> xs[i] <= cap
    requires Sum(xs) >= |xs| as real * cap
    ensures forall i :: 0 <= i < |xs| ==> xs[i] == cap
  {
    if |xs| > 0 {
      SumAtMost(xs[1..], cap);
      AllAtCap(xs[1..], cap);
      forall i | 0 <= i < |xs| ensures xs[i] == cap {
        if i > 0 { assert xs[i] == xs[1..][i - 1]; }
      }
    }
  }

  lemma {:induction false} SumAtMost(xs: seq<real>, cap: real)
    requires forall i :: 0 <= i < |xs| ==> xs[i] <= cap
    ensures Sum(xs) <= |xs| as real * cap
  {
    if |xs| > 0 {
      SumAtMost(xs[1..], cap);
    }
  }

  /** A positive factor can be cancelled from both sides of an equation. */
  lemma Cancel(a: real, b: real, m: real)
    requires 0.0 < m && a * m == b * m
    ensures a == b
  {
    if a > b {
      ProductPositive(a - b, m);
    } else if a < b {
      ProductPositive(b - a, m);
    }
  }

  lemma {:induction false} SumOfConstant(xs: seq<real>, c: real)
    requires forall i :: 0 <= i < |xs| ==> xs[i] == c
    ensures Sum(xs) == |xs| as real * c
  {
    if |xs| > 0 {
      SumOfConstant(xs[1..], c);
    }
  }

  /** A sum of positive entries is positive, and of negative entries negative. */
  lemma SumSign(xs: seq<real>)
    requires |xs| > 0
    ensures (forall i :: 0 <= i < |xs| ==> 0.0 < xs[i]) ==> 0.0 < Sum(xs)
    ensures (forall i :: 0 <= i < |xs| ==> xs[i] < 0.0) ==> Sum(xs) < 0.0
  {
    if forall i :: 0 <= i < |xs| ==> 0.0 < xs[i] {
      SumPositive(xs);
    }
    if forall i :: 0 <= i < |xs| ==> xs[i] < 0.0 {
      SumNegative(xs);
    }
  }

  /** numpy's mean of a non-empty sequence. */
  function Mean(xs: seq<real>): (m: real)
    requires |xs| > 0
    ensures (forall i :: 0 <= i < |xs| ==> 0.0 < xs[i]) ==> 0.0 < m
    ensures (forall i :: 0 <= i < |xs| ==> xs[i] < 0.0) ==> m < 0.0
  {
    SumSign(xs);
    Sum(xs) / |xs| as real
  }

  /** Sum of squared deviations of `xs` from `c`. */
  function SumSquaredDeviations(xs: seq<real>, c: real): real
  {
    if |xs| == 0 then 0.0 else Square(xs[0] - c) + SumSquaredDeviations(xs[1..], c)
  }

  lemma {:induction false} SquaredDeviationsZeroIff(xs: seq<real>, c: real)
    ensures 0.0 <= SumSquaredDeviations(xs, c)
    ensures SumSquaredDeviations(xs, c) == 0.0 <==> forall i :: 0 <= i < |xs| ==> xs[i] == c
  {
    if |xs| > 0 {
      SquaredDeviationsZeroIff(xs[1..], c);
      SquareFacts(xs[0] - c);
      if forall i :: 0 <= i < |xs[1..]| ==> xs[1..][i] == c {
        if xs[0] == c {
          forall i | 0 <= i < |xs| ensures xs[i] == c {
            if i > 0 { assert xs[i] == xs[1..][i - 1]; }
          }
        }
      } else {
        var k :| 0 <= k < |xs[1..]| && xs[1..][k] != c;
        assert xs[k + 1] != c;
      }
    }
  }

  /** numpy's population variance (ddof = 0) of a non-empty sequence: it is
      never negative, and zero exactly when every entry equals the mean. */
  function Variance(xs: seq<real>): (v: real)
    requires |xs| > 0
    ensures 0.0 <= v
    ensures v == 0.0 <==> forall i :: 0 <= i < |xs| ==> xs[i] == Mean(xs)
  {
    SquaredDeviationsZeroIff(xs, Mean(xs));
    SumSquaredDeviations(xs, Mean(xs)) / |xs| as real
  }

  /** numpy's std: the square root of the population variance. */
  function Std(xs: seq<real>, sqrt: real -> real): (s: real)
    requires |xs| > 0
    requires IsSqrt(sqrt)
    ensures 0.0 <= s
    ensures s == 0.0 <==> forall i :: 0 <= i < |xs| ==> xs[i] == Mean(xs)
  {
    SqrtZeroIff(sqrt, Variance(xs));
    sqrt(Variance(xs))
  }

  /** `xs / sum(xs)`, the normalisation both optimisers apply to weights. */
  function Normalised(xs: seq<real>): seq<real>
    requires Sum(xs) != 0.0
  {
    seq(|xs|, i requires 0 <= i < |xs| => xs[i] / Sum(xs))
  }

  lemma {:induction false} SumDividedBy(xs: seq<real>, d: real)
    requires d != 0.0
    ensures Sum(seq(|xs|, i requires 0 <= i < |xs| => xs[i] / d)) == Sum(xs) / d
  {
    var ys := seq(|xs|, i requires 0 <= i < |xs| => xs[i] / d);
    if |xs| > 0 {
      assert ys[1..] == seq(|xs[1..]|, i requires 0 <= i < |xs[1..]| => xs[1..][i] / d);
      SumDividedBy(xs[1..], d);
      assert Sum(ys) == xs[0] / d + Sum(xs[1..]) / d;
    }
  }

  /** Normalising by a positive sum gives weights that sum to one, are
      proportional to the input, and are non-negative when the input is. */
  lemma NormalisedIsDistribution(xs: seq<real>)
    requires Sum(xs) > 0.0
    ensures |Normalised(xs)| == |xs|
    ensures Sum(Normalised(xs)) == 1.0
    ensures forall i :: 0 <= i < |xs| ==> Normalised(xs)[i] * Sum(xs) == xs[i]
    ensures (forall i :: 0 <= i < |xs| ==> 0.0 <= xs[i]) ==>
              forall i :: 0 <= i < |xs| ==> 0.0 <= Normalised(xs)[i]
  {
    var d := Sum(xs);
    assert Normalised(xs) == seq(|xs|, i requires 0 <= i < |xs| => xs[i] / d);
    SumDividedBy(xs, d);
    assert d / d == 1.0;
  }

  /** The vector `[1/n] * n`. */
  function Uniform(n: nat): seq<real>
    requires n > 0
  {
    seq(n, _ => 1.0 / n as real)
  }

  lemma {:induction false} SumConstant(n: nat, c: real)
    ensures Sum(seq(n, _ => c)) == n as real * c
  {
    if n > 0 {
      assert seq(n, _ => c)[1..] == seq(n - 1, _ => c);
      SumConstant(n - 1, c);
    }
  }

  /** The uniform vector has n entries equal to 1/n that sum to one. */
  lemma UniformIsDistribution(n: nat)
    requires n > 0
    ensures |Uniform(n)| == n
    ensures Sum(Uniform(n)) == 1.0
    ensures forall i :: 0 <= i < n ==> Uniform(n)[i] * n as real == 1.0
  {
    SumConstant(n, 1.0 / n as real);
  }
}
