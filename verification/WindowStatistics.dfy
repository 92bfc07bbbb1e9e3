/** The windowed statistics: z-score, Bollinger bands, correlation, return distribution, least squares.
    `sqrt` stands for std::sqrt; where its value matters it is required to be the non-negative root. */
module WindowStatistics {
  import opened Numbers
  import opened Sums
  import opened Statistics
  import opened TickStore
  import opened Lanes
  import opened Indicators

  ghost predicate IsRoot(sqrt: real -> real) {
    forall x :: x >= 0.0 ==> sqrt(x) >= 0.0 && sqrt(x) * sqrt(x) == x
  }

  datatype Column = Last | Dxy | Yield

  function Values(c: Column, rows: seq<Row>): (v: seq<real>)
    ensures |v| == |rows|
  {
    match c
    case Last => Lasts(rows)
    case Dxy => DxyPrices(rows)
    case Yield => Yields(rows)
  }

  method ValueAt(s: Store, c: Column, n: nat, i: nat) returns (v: real)
    requires s.Valid() && i < n <= s.Filled()
    ensures v == Values(c, s.Window(n))[i]
  {
    hide Store.Valid;
    var idx := s.SlotOf(n, i);
    match c
    case Last => v := s.lasts[idx];
    case Dxy => v := s.dxyPrices[idx];
    case Yield => v := s.yield10y[idx];
  }

  // The extraction loop every statistic starts with.
  method CopyColumn(s: Store, c: Column, n: nat) returns (scratch: array<real>)
    requires s.Valid() && n <= s.Filled()
    ensures fresh(scratch) && scratch.Length == n && scratch[..] == Values(c, s.Window(n))
  {
    hide *;
    ghost var w := Values(c, s.Window(n));
    scratch := new real[n];
    for i := 0 to n
      invariant scratch[..i] == w[..i]
    {
      scratch[i] := ValueAt(s, c, n, i);
    }
    assert scratch[..n] == scratch[..] && w[..n] == w;
  }

  method CopyLasts(s: Store, n: nat) returns (scratch: array<real>)
    requires s.Valid() && n <= s.Filled()
    ensures fresh(scratch) && scratch.Length == n && scratch[..] == Lasts(s.Window(n))
  {
    scratch := CopyColumn(s, Last, n);
  }

  method Centre(a: array<real>, m: real)
    modifies a
    ensures a[..] == Centred(old(a[..]), m)
  {
    for i := 0 to a.Length
      invariant forall j :: 0 <= j < i ==> a[j] == old(a[j]) - m
      invariant forall j :: i <= j < a.Length ==> a[j] == old(a[j])
    {
      a[i] := a[i] - m;
    }
  }

  // ---- z-score

  /** The divisor of the z-score, with its fallback for a window without spread. */
  function Deviation(sqrt: real -> real, variance: real): (r: real)
    requires IsRoot(sqrt)
    ensures r > 0.0
  {
    if variance > 0.0 then
      RootIsPositive(sqrt, variance);
      sqrt(variance)
    else 0.0000000001
  }

  // The two deviations are roots of the variance, except without spread.
  lemma DeviationsAreRoots(sqrt: real -> real, variance: real)
    requires IsRoot(sqrt) && variance > 0.0
    ensures Deviation(sqrt, variance) * Deviation(sqrt, variance) == variance
    ensures StdDev(sqrt, variance) * StdDev(sqrt, variance) == variance && StdDev(sqrt, variance) >= 0.0
  {
    RootIsPositive(sqrt, variance);
  }

  method ComputeZscore(s: Store, period: nat, sqrt: real -> real) returns (zscore: real, mean: real, stddev: real)
    requires s.Valid() && IsRoot(sqrt)
    ensures var n := Min(s.Filled(), period);
            var w := Lasts(s.Window(n));
            if n < 2 then zscore == mean == stddev == 0.0
            else
              && mean == Mean(w) && stddev == Deviation(sqrt, Variance(w))
              && zscore == Ratio(w[n - 1] - mean, stddev)
              && Square(zscore) <= n as real - 1.0
  {
    hide *;
    var n := Min(s.Filled(), period);
    if n < 2 {
      return 0.0, 0.0, 0.0;
    }
    ghost var w := Lasts(s.Window(n));
    var scratch := CopyLasts(s, n);
    assert scratch[..n] == w;
    var sum := Avx2Sum(scratch, n);
    mean := Ratio(sum, n as real);
    var sq := Avx2SumSq(scratch, n);
    var variance := VarianceFrom(n as real, sum, sq);
    MeanIs(w);
    VarianceIs(w);
    stddev := Deviation(sqrt, variance);
    var last := LastAt(s, n, n - 1);
    zscore := Ratio(last - mean, stddev);
    ZscoreIsBounded(w, sqrt);
  }

  // Samuelson's bound holds on both branches: without spread every price is the mean.
  lemma ZscoreIsBounded(w: seq<real>, sqrt: real -> real)
    requires w != [] && IsRoot(sqrt)
    ensures Square(Ratio(w[|w| - 1] - Mean(w), Deviation(sqrt, Variance(w)))) <= |w| as real - 1.0
  {
    Samuelson(w);
    var d, v, n1 := w[|w| - 1] - Mean(w), Variance(w), |w| as real - 1.0;
    if v > 0.0 {
      RootIsPositive(sqrt, v);
      RatioSquared(d, sqrt(v), v, n1);
    } else {
      NoDeviation(d, n1, v);
    }
  }

  lemma RootIsPositive(sqrt: real -> real, v: real)
    requires IsRoot(sqrt) && v > 0.0
    ensures sqrt(v) > 0.0 && sqrt(v) * sqrt(v) == v
  {
  }

  lemma RatioSquared(d: real, r: real, v: real, n1: real)
    requires r > 0.0 && v > 0.0 && r * r == v && d * d <= n1 * v
    ensures Square(Ratio(d, r)) <= n1
  {
    var z := Ratio(d, r);
    var gap := n1 - z * z;
    assert d * d == (z * z) * v by {
      assert d == z * r;
      assert d * d == (z * z) * (r * r);
    }
    assert v * gap == n1 * v - (z * z) * v;
    Quotient(v, gap);
  }

  lemma NoDeviation(d: real, n1: real, v: real)
    requires n1 >= 0.0 && v == 0.0 && d * d <= n1 * v
    ensures Square(Ratio(d, 0.0000000001)) <= n1
  {
    SquareSign(d);
    assert n1 * v == 0.0;
  }

  // ---- Bollinger bands

  method ComputeBollinger(s: Store, period: nat, multiplier: real, sqrt: real -> real)
    returns (upper: real, mid: real, lower: real, width: real)
    requires s.Valid() && period > 0
    ensures if s.Filled() < period then upper == mid == lower == width == 0.0
            else
              var w := Lasts(s.Window(period));
              var band := Product(multiplier, StdDev(sqrt, Variance(w)));
              mid == Mean(w) && upper == mid + band && lower == mid - band && width == upper - lower
  {
    hide *;
    var n := Min(s.Filled(), period);
    if n < period {
      return 0.0, 0.0, 0.0, 0.0;
    }
    ghost var w := Lasts(s.Window(period));
    var scratch := CopyLasts(s, period);
    assert scratch[..period] == w;
    var sum := Avx2Sum(scratch, period);
    mid := Ratio(sum, period as real);
    var sq := Avx2SumSq(scratch, period);
    var sdev := StdDev(sqrt, VarianceFrom(period as real, sum, sq));
    MeanIs(w);
    VarianceIs(w);
    var band := Product(multiplier, sdev);
    upper, lower := mid + band, mid - band;
    width := upper - lower;
  }

  /** How many values lie strictly outside mean +- band. */
  function Outside(w: seq<real>, mean: real, band: real): (count: nat)
    ensures count <= |w|
  {
    if w == [] then 0
    else
      var x := w[|w| - 1];
      Outside(w[..|w| - 1], mean, band) + (if x > mean + band || x < mean - band then 1 else 0)
  }

  // Chebyshev: with multiplier 2 at most a quarter of the window lies outside the bands.
  lemma FewPricesOutside(w: seq<real>, sqrt: real -> real)
    requires w != [] && IsRoot(sqrt)
    ensures 4 * Outside(w, Mean(w), 2.0 * StdDev(sqrt, Variance(w))) <= |w|
  {
    hide Variance, Mean, Outside;
    VarianceIsNonNegative(w);
    if Variance(w) > 0.0 {
      RootIsPositive(sqrt, Variance(w));
      FewOutsideSpread(w, sqrt(Variance(w)));
    } else {
      NoneOutsidePoint(w);
    }
  }

  lemma FewOutsideSpread(w: seq<real>, sd: real)
    requires w != [] && sd > 0.0 && sd * sd == Variance(w) && Variance(w) > 0.0
    ensures 4 * Outside(w, Mean(w), 2.0 * sd) <= |w|
  {
    hide *;
    var m := Mean(w);
    SpreadIsCentred(w);
    OutsideCost(w, m, 2.0 * sd);
    FewEnough(Outside(w, m, 2.0 * sd), |w|, sd, Variance(w), Dot(Centred(w, m), Centred(w, m)));
  }

  lemma NoneOutsidePoint(w: seq<real>)
    requires w != [] && Variance(w) == 0.0
    ensures Outside(w, Mean(w), 0.0) == 0
  {
    hide *;
    SpreadIsCentred(w);
    OutsideMakesSpread(w, Mean(w));
  }

  lemma CostStep(count: nat, far: bool, d: real, band: real, total: real)
    requires band >= 0.0 && count as real * (band * band) <= total && (far ==> d > band || d < -band)
    ensures (count + if far then 1 else 0) as real * (band * band) <= total + Product(d, d)
  {
    FarSquare(d, band);
  }

  lemma {:induction false} OutsideCost(w: seq<real>, m: real, band: real)
    requires band >= 0.0
    ensures Outside(w, m, band) as real * (band * band) <= Dot(Centred(w, m), Centred(w, m))
    decreases |w|
  {
    hide Product;
    if w != [] {
      var n := |w| - 1;
      OutsideCost(w[..n], m, band);
      assert Centred(w, m)[..n] == Centred(w[..n], m);
      CostStep(Outside(w[..n], m, band), w[n] > m + band || w[n] < m - band, w[n] - m, band,
               Dot(Centred(w[..n], m), Centred(w[..n], m)));
    }
  }

  lemma FarSquare(d: real, band: real)
    requires band >= 0.0
    ensures d * d >= 0.0
    ensures d > band || d < -band ==> d * d >= band * band
  {
    SquareSign(d);
    if d > band {
      assert d * d - band * band == (d - band) * (d + band);
      ProductSign(d - band, d + band);
    } else if d < -band {
      assert d * d - band * band == (-d - band) * (-d + band);
      ProductSign(-d - band, -d + band);
    }
  }

  // n times the variance is the sum of squared deviations from the mean.
  lemma SpreadIsCentred(w: seq<real>)
    requires w != []
    ensures Dot(Centred(w, Mean(w)), Centred(w, Mean(w))) == |w| as real * Variance(w)
  {
    hide *;
    MeanIs(w);
    VarianceIs(w);
    CentredDot(w, w, Mean(w), Mean(w));
    SpreadOfCentred(|w| as real, Sum(w), Dot(w, w), Mean(w));
  }

  lemma SpreadOfCentred(n: real, s: real, q: real, m: real)
    requires n > 0.0 && m == Ratio(s, n) && s == n * m
    ensures q - m * s - m * (s - n * m) == n * VarianceFrom(n, s, q)
  {
    RatioTimes(q, n);
    var r := Ratio(q, n);
    assert n * (r - m * m) == n * r - m * (n * m);
  }

  lemma FewEnough(count: nat, n: nat, sd: real, v: real, total: real)
    requires v > 0.0 && sd * sd == v && total == n as real * v
    requires count as real * ((2.0 * sd) * (2.0 * sd)) <= total
    ensures 4 * count <= n
  {
    assert (2.0 * sd) * (2.0 * sd) == 4.0 * v;
    var gap := n as real - 4.0 * count as real;
    assert v * gap == total - count as real * (4.0 * v);
    Quotient(v, gap);
  }

  lemma {:induction false} OutsideMakesSpread(w: seq<real>, m: real)
    ensures Outside(w, m, 0.0) > 0 ==> Dot(Centred(w, m), Centred(w, m)) > 0.0
    decreases |w|
  {
    hide Product;
    if w != [] {
      var n, c := |w| - 1, Centred(w, m);
      assert c[..n] == Centred(w[..n], m);
      SquaresSum(c[..n]);
      ProductOfSelf(c[n]);
      OutsideMakesSpread(w[..n], m);
    }
  }

  // ---- correlation

  /** A column of the last n ticks with its mean removed. */
  function Deviations(w: seq<real>): (d: seq<real>)
    requires w != []
    ensures |d| == |w|
  {
    Centred(w, Mean(w))
  }

  method CopyDeviations(s: Store, c: Column, n: nat) returns (d: array<real>, mean: real)
    requires s.Valid() && 0 < n <= s.Filled()
    ensures var w := Values(c, s.Window(n));
            fresh(d) && d.Length == n && d[..] == Deviations(w) && mean == Mean(w)
  {
    hide Store.Valid, Store.Window, Values, Mean;
    d := CopyColumn(s, c, n);
    ghost var w := Values(c, s.Window(n));
    assert d[..n] == d[..];
    var sum := Avx2Sum(d, n);
    mean := Ratio(sum, n as real);
    MeanIs(w);
    Centre(d, mean);
  }

  method ComputeCorrelation(s: Store, window: nat, sqrt: real -> real)
    returns (corr: real, xauDelta: real, dxyDelta: real)
    requires s.Valid() && IsRoot(sqrt)
    ensures var n := Min(s.Filled(), window);
            if n < 4 then corr == xauDelta == dxyDelta == 0.0
            else
              var x, y := Values(Last, s.Window(n)), Values(Dxy, s.Window(n));
              var varX, varY := Dot(Deviations(x), Deviations(x)), Dot(Deviations(y), Deviations(y));
              if varX < 0.000000000001 || varY < 0.000000000001 then corr == xauDelta == dxyDelta == 0.0
              else
                && xauDelta == x[n - 1] - x[0] && dxyDelta == y[n - 1] - y[0]
                && exists root :: root == sqrt(Product(varX, varY)) && root > 0.0
                                  && corr == Ratio(Dot(Deviations(x), Deviations(y)), root)
    ensures -1.0 <= corr <= 1.0
  {
    hide *;
    var n := Min(s.Filled(), window);
    if n < 4 {
      return 0.0, 0.0, 0.0;
    }
    ghost var x, y := Values(Last, s.Window(n)), Values(Dxy, s.Window(n));
    var xau, mx := CopyDeviations(s, Last, n);
    var dxy, my := CopyDeviations(s, Dxy, n);
    assert xau[..n] == xau[..] && dxy[..n] == dxy[..];
    var cov := Avx2Dot(xau, dxy, n);
    var varX := Avx2SumSq(xau, n);
    var varY := Avx2SumSq(dxy, n);
    if varX < 0.000000000001 || varY < 0.000000000001 {
      return 0.0, 0.0, 0.0;
    }
    var root := sqrt(Product(varX, varY));
    RootOfProduct(sqrt, varX, varY);
    corr := Ratio(cov, root);
    CorrelationIsBounded(Deviations(x), Deviations(y), root);
    var firstX := ValueAt(s, Last, n, 0);
    var lastX := ValueAt(s, Last, n, n - 1);
    var firstY := ValueAt(s, Dxy, n, 0);
    var lastY := ValueAt(s, Dxy, n, n - 1);
    xauDelta, dxyDelta := lastX - firstX, lastY - firstY;
  }

  lemma RootOfProduct(sqrt: real -> real, a: real, b: real)
    requires IsRoot(sqrt) && a > 0.0 && b > 0.0
    ensures var root := sqrt(Product(a, b));
            root > 0.0 && root * root == a * b
  {
    PositiveProduct(a, b);
    RootIsPositive(sqrt, Product(a, b));
  }

  // ---- least squares of price on yield

  method ComputeRollingOls(s: Store, period: nat) returns (slope: real, intercept: real, residual: real, mse: real)
    requires s.Valid()
    ensures var n := Min(s.Filled(), period);
            if n < 5 then slope == intercept == residual == mse == 0.0
            else
              var x, y := Values(Yield, s.Window(n)), Values(Last, s.Window(n));
              var sxx := Dot(Deviations(x), Deviations(x));
              var e := Residuals(x, y, slope, intercept);
              && slope == (if sxx > 0.000000000001 then Ratio(Dot(Deviations(x), Deviations(y)), sxx) else 0.0)
              && intercept == Mean(y) - Product(slope, Mean(x))
              && residual == e[n - 1] && mse == Ratio(Dot(e, e), n as real)
  {
    hide *;
    var n := Min(s.Filled(), period);
    if n < 5 {
      return 0.0, 0.0, 0.0, 0.0;
    }
    ghost var wx, wy := Values(Yield, s.Window(n)), Values(Last, s.Window(n));
    var x, mx := CopyDeviations(s, Yield, n);
    var y, my := CopyDeviations(s, Last, n);
    assert x[..n] == x[..] && y[..n] == y[..];
    var sxy := Avx2Dot(x, y, n);
    var sxx := Avx2SumSq(x, n);
    slope := if sxx > 0.000000000001 then Ratio(sxy, sxx) else 0.0;
    intercept := my - Product(slope, mx);
    var lastY := ValueAt(s, Last, n, n - 1);
    var lastX := ValueAt(s, Yield, n, n - 1);
    ghost var e := Residuals(wx, wy, slope, intercept);
    ResidualsAt(wx, wy, slope, intercept, n - 1);
    residual := Residual(lastX, lastY, slope, intercept);
    mse := 0.0;
    EmptySums();
    for i := 0 to n
      invariant mse == Dot(e[..i], e[..i])
    {
      var yi := ValueAt(s, Last, n, i);
      var xi := ValueAt(s, Yield, n, i);
      var err := Residual(xi, yi, slope, intercept);
      ResidualsAt(wx, wy, slope, intercept, i);
      DotStep(e, e, i);
      mse := mse + Product(err, err);
    }
    assert e[..n] == e;
    mse := Ratio(mse, n as real);
  }

  lemma ResidualsAt(x: seq<real>, y: seq<real>, slope: real, intercept: real, i: nat)
    requires |x| == |y| && i < |x|
    ensures Residuals(x, y, slope, intercept)[i] == Residual(x[i], y[i], slope, intercept)
  {
  }

  // When the yields vary, no line has a smaller mean squared error, and the residuals sum to zero.
  lemma OlsIsOptimal(x: seq<real>, y: seq<real>, slope: real, intercept: real, a: real, b: real)
    requires |x| == |y| && x != []
    requires var sxx := Dot(Deviations(x), Deviations(x));
             && sxx > 0.000000000001 && slope == Ratio(Dot(Deviations(x), Deviations(y)), sxx)
             && intercept == Mean(y) - Product(slope, Mean(x))
    ensures var e, f := Residuals(x, y, slope, intercept), Residuals(x, y, a, b);
            && Ratio(Dot(e, e), |x| as real) <= Ratio(Dot(f, f), |x| as real)
            && Sum(e) == 0.0
  {
    hide Dot, Sum, Residuals, Product, Ratio, Mean;
    LeastSquares(x, y, Mean(x), Mean(y), slope, intercept, a, b);
    RatioOrder(Dot(Residuals(x, y, slope, intercept), Residuals(x, y, slope, intercept)),
               Dot(Residuals(x, y, a, b), Residuals(x, y, a, b)), |x| as real);
  }

  // On both branches the residuals sum to zero and no other intercept does better with the reported slope; on the
  // branch without spread, where the slope is 0, no line at all does better if and only if price and yield do not
  // vary together.
  lemma OlsOnBothBranches(x: seq<real>, y: seq<real>, slope: real, intercept: real, b: real)
    requires |x| == |y| && x != []
    requires var sxx := Dot(Deviations(x), Deviations(x));
             && slope == (if sxx > 0.000000000001 then Ratio(Dot(Deviations(x), Deviations(y)), sxx) else 0.0)
             && intercept == Mean(y) - Product(slope, Mean(x))
    ensures Sum(Residuals(x, y, slope, intercept)) == 0.0
    ensures SquareError(x, y, slope, intercept) <= SquareError(x, y, slope, b)
    ensures Dot(Deviations(x), Deviations(x)) <= 0.000000000001 ==>
              ((forall a, c :: SquareError(x, y, slope, intercept) <= SquareError(x, y, a, c))
               <==> Dot(Deviations(x), Deviations(y)) == 0.0)
  {
    hide Dot, Sum, Residuals, Ratio, Mean, SquareError;
    InterceptIsBest(x, y, Mean(x), Mean(y), slope, intercept, b);
    if Dot(Deviations(x), Deviations(x)) <= 0.000000000001 {
      assert intercept == Mean(y);
      FlatLineIsBestIff(x, y, Mean(x), Mean(y), slope);
    }
  }

  lemma RatioOrder(p: real, q: real, n: real)
    requires n > 0.0 && p <= q
    ensures Ratio(p, n) <= Ratio(q, n)
  {
    RatioTimes(p, n);
    RatioTimes(q, n);
    var gap := Ratio(q, n) - Ratio(p, n);
    assert n * gap == q - p;
    Quotient(n, gap);
  }
}
