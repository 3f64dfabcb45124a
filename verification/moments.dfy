/** Per-axis reductions over an ensemble: extrema, mean and standard
    deviation of a sequence of reals. */
module Moments {
  import opened RealMath

  /** The smallest element. */
  function Min(xs: seq<real>): (r: real)
    requires |xs| > 0
    ensures forall i :: 0 <= i < |xs| ==> r <= xs[i]
    ensures r in xs
  {
    if |xs| == 1 then xs[0]
    else
      var m := Min(xs[..|xs| - 1]);
      assert forall i :: 0 <= i < |xs| - 1 ==> xs[..|xs| - 1][i] == xs[i];
      if xs[|xs| - 1] < m then xs[|xs| - 1] else m
  }

  /** The largest element. */
  function Max(xs: seq<real>): (r: real)
    requires |xs| > 0
    ensures forall i :: 0 <= i < |xs| ==> xs[i] <= r
    ensures r in xs
  {
    if |xs| == 1 then xs[0]
    else
      var m := Max(xs[..|xs| - 1]);
      assert forall i :: 0 <= i < |xs| - 1 ==> xs[..|xs| - 1][i] == xs[i];
      if m < xs[|xs| - 1] then xs[|xs| - 1] else m
  }

  /** The number of elements, as a real. */
  function Count(xs: seq<real>): (r: real)
    ensures 0.0 <= r && (|xs| > 0 ==> 1.0 <= r)
  {
    if |xs| == 0 then 0.0 else Count(xs[..|xs| - 1]) + 1.0
  }

  /** `Count` is the length. */
  lemma {:induction false} CountIsLength(xs: seq<real>)
    ensures Count(xs) == |xs| as real
  {
    if |xs| > 0 {
      CountIsLength(xs[..|xs| - 1]);
    }
  }

  function Sum(xs: seq<real>): real {
    if |xs| == 0 then 0.0 else Sum(xs[..|xs| - 1]) + xs[|xs| - 1]
  }

  function SumSq(xs: seq<real>): real {
    if |xs| == 0 then 0.0 else SumSq(xs[..|xs| - 1]) + xs[|xs| - 1] * xs[|xs| - 1]
  }

  /** Σx² - 2c·Σx + n·c², from the three running sums. */
  function Expanded(q: real, s: real, n: real, c: real): real {
    q - 2.0 * c * s + n * c * c
  }

  /** The sum of squared deviations from `c`, the two-pass definition of
      the spread. */
  function SumSqDev(xs: seq<real>, c: real): real {
    if |xs| == 0 then 0.0
    else SumSqDev(xs[..|xs| - 1], c) + (xs[|xs| - 1] - c) * (xs[|xs| - 1] - c)
  }

  /** The arithmetic mean. */
  function Mean(xs: seq<real>): real
    requires |xs| > 0
  {
    Sum(xs) / Count(xs)
  }

  /** The radicand of the one-pass standard deviation: mean square minus
      squared mean. */
  function VarianceOnePass(xs: seq<real>): real
    requires |xs| > 0
  {
    SumSq(xs) / Count(xs) - Mean(xs) * Mean(xs)
  }

  /** The population standard deviation, computed in one pass. */
  function Std(m: MathLib, xs: seq<real>): real
    requires |xs| > 0
  {
    m.sqrt(VarianceOnePass(xs))
  }

  /** Extrema by a single scan. */
  method MinMax(xs: seq<real>) returns (lo: real, hi: real)
    requires |xs| > 0
    ensures lo == Min(xs) && hi == Max(xs)
    ensures forall i :: 0 <= i < |xs| ==> lo <= xs[i] <= hi
    ensures lo in xs && hi in xs
  {
    lo := xs[0];
    hi := xs[0];
    var i := 1;
    while i < |xs|
      invariant 1 <= i <= |xs|
      invariant lo == Min(xs[..i]) && hi == Max(xs[..i])
    {
      MinMaxSnoc(xs, i);
      lo := if xs[i] < lo then xs[i] else lo;
      hi := if hi < xs[i] then xs[i] else hi;
      i := i + 1;
    }
    assert xs[..i] == xs;
  }

  /** One more element updates the extrema of a prefix. */
  lemma {:induction false} MinMaxSnoc(xs: seq<real>, i: int)
    requires 1 <= i < |xs|
    ensures Min(xs[..i + 1]) == if xs[i] < Min(xs[..i]) then xs[i] else Min(xs[..i])
    ensures Max(xs[..i + 1]) == if Max(xs[..i]) < xs[i] then xs[i] else Max(xs[..i])
  {
    var p := xs[..i + 1];
    assert p[..|p| - 1] == xs[..i];
    assert p[|p| - 1] == xs[i];
  }

  /** Mean and standard deviation by one scan accumulating the sum and the
      sum of squares. */
  method MeanStd(m: MathLib, xs: seq<real>) returns (mean: real, std: real)
    requires |xs| > 0
    ensures mean == Mean(xs) && std == Std(m, xs)
    ensures mean * Count(xs) == Sum(xs)
  {
    var s := 0.0;
    var s2 := 0.0;
    var i := 0;
    while i < |xs|
      invariant 0 <= i <= |xs|
      invariant s == Sum(xs[..i]) && s2 == SumSq(xs[..i])
    {
      assert xs[..i + 1][..i] == xs[..i];
      s := s + xs[i];
      s2 := s2 + xs[i] * xs[i];
      i := i + 1;
    }
    assert xs[..i] == xs;
    var n := Count(xs);
    mean := s / n;
    DivOf(s, n, mean) by {
      assert s == n * (s / n);
    }
    std := m.sqrt(s2 / n - mean * mean);
    assert mean == Mean(xs);
    assert s2 / n - mean * mean == VarianceOnePass(xs);
  }

  // ----- Properties -----

  /** Expanding the squares: Σ(x - c)² = Σx² - 2c·Σx + n·c². */
  lemma {:induction false} SumSqDevExpand(xs: seq<real>, c: real)
    ensures SumSqDev(xs, c) == Expanded(SumSq(xs), Sum(xs), Count(xs), c)
  {
    if |xs| > 0 {
      SumSqDevExpand(xs[..|xs| - 1], c);
      SumSqDevExpandSnoc(xs, c);
    }
  }

  /** The inductive step of `SumSqDevExpand`: the expansion for all but the
      last element extends to the whole sequence. */
  lemma SumSqDevExpandSnoc(xs: seq<real>, c: real)
    requires |xs| > 0
    requires var ys := xs[..|xs| - 1];
      SumSqDev(ys, c) == Expanded(SumSq(ys), Sum(ys), Count(ys), c)
    ensures SumSqDev(xs, c) == Expanded(SumSq(xs), Sum(xs), Count(xs), c)
  {
    var ys := xs[..|xs| - 1];
    ExpandStep(SumSqDev(xs, c), SumSqDev(ys, c), SumSq(ys), Sum(ys), Count(ys), c, xs[|xs| - 1],
               SumSq(xs), Sum(xs), Count(xs));
  }

  /** One more element x adds (x - c)² to the expanded form: if `dy` is the
      expanded form of the shorter sums, `dx = dy + (x - c)²` is that of the
      sums extended by x. */
  lemma ExpandStep(dx: real, dy: real, q: real, s: real, n: real, c: real, x: real,
                   qx: real, sx: real, nx: real)
    requires dx == dy + (x - c) * (x - c) && dy == Expanded(q, s, n, c)
    requires qx == q + x * x && sx == s + x && nx == n + 1.0
    ensures dx == Expanded(qx, sx, nx, c)
  {
    assert (x - c) * (x - c) == x * x - 2.0 * c * x + c * c;
    assert (n + 1.0) * c * c == n * c * c + c * c;
  }

  /** A sum of squares is non-negative. */
  lemma {:induction false} SumSqDevNonNegative(xs: seq<real>, c: real)
    ensures 0.0 <= SumSqDev(xs, c)
  {
    if |xs| > 0 {
      SumSqDevNonNegative(xs[..|xs| - 1], c);
      var d := xs[|xs| - 1] - c;
      assert 0.0 <= d * d;
    }
  }

  /** The one-pass radicand equals the two-pass variance, the mean squared
      deviation from the mean, and so is never negative. */
  lemma {:induction false} VarianceAgrees(xs: seq<real>)
    requires |xs| > 0
    ensures VarianceOnePass(xs) == SumSqDev(xs, Mean(xs)) / Count(xs)
    ensures 0.0 <= VarianceOnePass(xs)
  {
    OnePassAt(xs, Mean(xs));
    SpreadAt(xs, Mean(xs));
  }

  /** The one-pass radicand at a named mean is the mean squared deviation. */
  lemma {:induction false} OnePassAt(xs: seq<real>, mu: real)
    requires |xs| > 0 && mu == Sum(xs) / Count(xs)
    ensures SumSq(xs) / Count(xs) - mu * mu == SumSqDev(xs, mu) / Count(xs)
  {
    SumSqDevExpand(xs, mu);
    OnePass(SumSq(xs), Sum(xs), Count(xs), mu, SumSqDev(xs, mu));
  }

  /** The mean squared deviation is non-negative. */
  lemma {:induction false} SpreadAt(xs: seq<real>, mu: real)
    requires |xs| > 0
    ensures 0.0 <= SumSqDev(xs, mu) / Count(xs)
  {
    SumSqDevNonNegative(xs, mu);
    DivAtLeast(SumSqDev(xs, mu), Count(xs), 0.0);
  }

  /** The algebra of `VarianceAgrees`, over plain reals: with mu = S/n and
      d = Q - 2·mu·S + n·mu², d/n = Q/n - mu². */
  lemma OnePass(q: real, s: real, n: real, mu: real, d: real)
    requires 0.0 < n && mu == s / n
    requires d == Expanded(q, s, n, mu)
    ensures q / n - mu * mu == d / n
  {
    assert s == n * mu;
    assert d == q - n * (mu * mu) by {
      assert 2.0 * mu * s == 2.0 * (n * (mu * mu));
      assert n * mu * mu == n * (mu * mu);
    }
    DivOf(d, n, q / n - mu * mu) by {
      assert q == n * (q / n);
    }
  }

  /** A lower bound on s / n, for positive n. */
  lemma DivAtLeast(s: real, n: real, lo: real)
    requires 0.0 < n && n * lo <= s
    ensures lo <= s / n
  {
    var q := s / n;
    assert s == n * q;
    SignOfProduct(lo - q, n);
  }

  /** An upper bound on s / n, for positive n. */
  lemma DivAtMost(s: real, n: real, hi: real)
    requires 0.0 < n && s <= n * hi
    ensures s / n <= hi
  {
    var q := s / n;
    assert s == n * q;
    SignOfProduct(q - hi, n);
  }

  /** The standard deviation is non-negative and its square is the variance. */
  lemma {:induction false} StdNonNegative(m: MathLib, xs: seq<real>)
    requires SqrtLaw(m) && |xs| > 0
    ensures 0.0 <= Std(m, xs)
    ensures Std(m, xs) * Std(m, xs) == SumSqDev(xs, Mean(xs)) / Count(xs)
  {
    VarianceAgrees(xs);
    var v := VarianceOnePass(xs);
    assert 0.0 <= m.sqrt(v) && m.sqrt(v) * m.sqrt(v) == v;
  }

  /** Bounds on every element bound the sum. */
  lemma {:induction false} SumBetween(xs: seq<real>, lo: real, hi: real)
    requires forall i :: 0 <= i < |xs| ==> lo <= xs[i] <= hi
    ensures Count(xs) * lo <= Sum(xs) <= Count(xs) * hi
  {
    if |xs| > 0 {
      var ys := xs[..|xs| - 1];
      assert forall i :: 0 <= i < |ys| ==> ys[i] == xs[i];
      SumBetween(ys, lo, hi);
      assert Count(xs) * lo == Count(ys) * lo + lo;
      assert Count(xs) * hi == Count(ys) * hi + hi;
    }
  }

  /** The mean lies between the extrema. */
  lemma {:induction false} MeanBetween(xs: seq<real>)
    requires |xs| > 0
    ensures Min(xs) <= Mean(xs) <= Max(xs)
  {
    MeanWithin(xs, Min(xs), Max(xs));
  }

  /** Any bounds on every element bound the mean. */
  lemma {:induction false} MeanWithin(xs: seq<real>, lo: real, hi: real)
    requires |xs| > 0
    requires forall i :: 0 <= i < |xs| ==> lo <= xs[i] <= hi
    ensures lo <= Mean(xs) <= hi
  {
    SumBetween(xs, lo, hi);
    QuotientBetween(Sum(xs), Count(xs), lo, hi);
  }

  /** Bounds on n·lo and n·hi bound s / n, for positive n. */
  lemma QuotientBetween(s: real, n: real, lo: real, hi: real)
    requires 0.0 < n && n * lo <= s && s <= n * hi
    ensures lo <= s / n && s / n <= hi
  {
    DivAtLeast(s, n, lo);
    DivAtMost(s, n, hi);
  }
}
