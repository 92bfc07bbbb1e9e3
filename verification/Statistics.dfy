/** Inequalities and optimality that the windowed statistics inherit from their formulas. */
module Statistics {
  import opened Sums

  /** Mean of squares minus square of mean, as the indicators compute it. */
  function VarianceFrom(n: real, sum: real, sq: real): real
    requires n != 0.0
  {
    Ratio(sq, n) - Product(Ratio(sum, n), Ratio(sum, n))
  }

  function Variance(a: seq<real>): real
    requires a != []
  {
    VarianceFrom(|a| as real, Sum(a), Dot(a, a))
  }

  lemma VarianceIs(a: seq<real>)
    requires a != []
    ensures Variance(a) == VarianceFrom(|a| as real, Sum(a), Dot(a, a))
  {
  }

  function Ones(n: nat): seq<real> {
    seq(n, i => 1.0)
  }

  lemma {:induction false} DotOnes(a: seq<real>)
    ensures Dot(a, Ones(|a|)) == Sum(a) && Dot(Ones(|a|), Ones(|a|)) == |a| as real
    decreases |a|
  {
    if a != [] {
      DotOnes(a[..|a| - 1]);
      assert Ones(|a|)[..|a| - 1] == Ones(|a| - 1);
    }
  }

  lemma SumSquaredBound(a: seq<real>)
    ensures Sum(a) * Sum(a) <= Dot(a, a) * |a| as real
  {
    CauchySchwarz(a, Ones(|a|));
    DotOnes(a);
  }

  // Samuelson: no observation is further than sqrt(n - 1) deviations from the mean.
  lemma Samuelson(a: seq<real>)
    requires a != []
    ensures Square(a[|a| - 1] - Mean(a)) <= (|a| as real - 1.0) * Variance(a)
    ensures Variance(a) >= 0.0
  {
    hide *;
    var i := |a| - 1;
    assert a[..i + 1] == a;
    SumSquaredBound(a[..i]);
    SumStep(a, i);
    DotStep(a, a, i);
    SamuelsonFromSums(|a| as real, a[i], Sum(a[..i]), Dot(a[..i], a[..i]), Sum(a), Dot(a, a));
    VarianceIsNonNegative(a);
    MeanIs(a);
    VarianceIs(a);
  }

  lemma VarianceIsNonNegative(a: seq<real>)
    requires a != []
    ensures Variance(a) >= 0.0
  {
    hide *;
    SumSquaredBound(a);
    VarianceIs(a);
    SpreadFromSums(|a| as real, Sum(a), Dot(a, a));
  }

  lemma SpreadFromSums(n: real, s: real, p: real)
    requires n > 0.0 && s * s <= p * n
    ensures VarianceFrom(n, s, p) >= 0.0
  {
    RatioTimes(s, n);
    RatioTimes(p, n);
    SpreadIsNonNegative(n, Ratio(s, n), Ratio(p, n), s, p);
  }

  lemma SamuelsonFromSums(n: real, x: real, s': real, p': real, s: real, p: real)
    requires n > 0.0 && s == s' + x && p == p' + Product(x, x) && s' * s' <= p' * (n - 1.0)
    ensures Square(x - Ratio(s, n)) <= (n - 1.0) * VarianceFrom(n, s, p)
  {
    RatioTimes(s, n);
    RatioTimes(p, n);
    SamuelsonBound(n, x, Ratio(s, n), Ratio(p, n), s', p');
  }

  lemma SpreadIsNonNegative(n: real, m: real, q: real, s: real, p: real)
    requires n > 0.0 && s == m * n && p == q * n && s * s <= p * n
    ensures q - m * m >= 0.0
  {
    assert s * s == n * n * (m * m);
    SignOfScaled(n, q - m * m);
  }

  lemma SamuelsonBound(n: real, x: real, m: real, q: real, s: real, p: real)
    requires n > 0.0 && s == m * n - x && p == q * n - x * x && s * s <= p * (n - 1.0)
    ensures Square(x - m) <= (n - 1.0) * (q - m * m)
  {
    assert s * s == (m * n - x) * (m * n - x);
    assert p * (n - 1.0) == (q * n - x * x) * (n - 1.0);
    SamuelsonGap(n, x, m, q);
  }

  lemma SamuelsonGap(n: real, x: real, m: real, q: real)
    requires n > 0.0 && (m * n - x) * (m * n - x) <= (q * n - x * x) * (n - 1.0)
    ensures Square(x - m) <= (n - 1.0) * (q - m * m)
  {
    var gap := (n - 1.0) * (q - m * m) - (x - m) * (x - m);
    assert n * gap == (q * n - x * x) * (n - 1.0) - (m * n - x) * (m * n - x);
    Quotient(n, gap);
  }

  lemma SignOfScaled(n: real, v: real)
    requires n > 0.0 && n * n * v >= 0.0
    ensures v >= 0.0
  {
    assert n * (n * v) >= 0.0;
    Quotient(n, n * v);
    Quotient(n, v);
  }

  // The correlation of centred windows is bounded by one.
  lemma CorrelationIsBounded(x: seq<real>, y: seq<real>, root: real)
    requires |x| == |y| && root > 0.0 && root * root == Dot(x, x) * Dot(y, y)
    ensures -1.0 <= Ratio(Dot(x, y), root) <= 1.0
  {
    CauchySchwarz(x, y);
    SquareOrder(Dot(x, y), root);
    RatioBound(Dot(x, y), root);
  }

  lemma SquareOrder(c: real, r: real)
    requires r > 0.0 && c * c <= r * r
    ensures -r <= c <= r
  {
    assert (r - c) * (r + c) == r * r - c * c;
    if c >= 0.0 {
      Quotient(r + c, r - c);
    } else {
      Quotient(r - c, r + c);
    }
  }

  lemma RatioBound(c: real, r: real)
    requires r > 0.0 && -r <= c <= r
    ensures -1.0 <= Ratio(c, r) <= 1.0
  {
    var t := Ratio(c, r);
    assert r * (1.0 - t) == r - c && r * (1.0 + t) == r + c by { assert r * t == c; }
    Quotient(r, 1.0 - t);
    Quotient(r, 1.0 + t);
  }

  // ---- third and fourth moments

  // Pearson: m3^2 <= m2 * (m4 - m2^2) for centred data.
  lemma PearsonMoments(d: seq<real>, m2: real, m3: real, m4: real)
    requires d != [] && Sum(d) == 0.0
    requires Dot(d, d) == m2 * |d| as real && Dot(d, Squares(d)) == m3 * |d| as real
    requires Dot(Squares(d), Squares(d)) == m4 * |d| as real
    ensures m3 * m3 <= m2 * (m4 - m2 * m2) && m4 >= m2 * m2
  {
    hide *;
    var n, e := |d| as real, Centred(Squares(d), m2);
    CauchySchwarz(d, e);
    SquaresSum(d);
    SquaresSum(e);
    assert Dot(d, e) == n * m3 by { CrossMoment(d, m2); }
    assert Dot(e, e) == n * (m4 - m2 * m2) by { SpreadOfSquares(d, m2, m4); }
    PearsonScale(n, m2, m3, m4 - m2 * m2, Dot(d, e), Dot(d, d), Dot(e, e));
  }

  lemma CrossMoment(d: seq<real>, m2: real)
    requires Sum(d) == 0.0
    ensures Dot(d, Centred(Squares(d), m2)) == Dot(d, Squares(d))
  {
    hide *;
    DotCommutes(d, Centred(Squares(d), m2));
    CentredAgainst(Squares(d), m2, d);
    DotCommutes(Squares(d), d);
  }

  lemma SpreadOfSquares(d: seq<real>, m2: real, m4: real)
    requires d != [] && Dot(d, d) == m2 * |d| as real
    requires Dot(Squares(d), Squares(d)) == m4 * |d| as real
    ensures Dot(Centred(Squares(d), m2), Centred(Squares(d), m2)) == |d| as real * (m4 - m2 * m2)
  {
    hide *;
    SquaresSum(d);
    CentredDot(Squares(d), Squares(d), m2, m2);
    SpreadAlgebra(|d| as real, m2, m4);
  }

  lemma SpreadAlgebra(n: real, m2: real, m4: real)
    ensures m4 * n - m2 * (m2 * n) - m2 * (m2 * n - n * m2) == n * (m4 - m2 * m2)
  {
  }

  lemma PearsonScale(n: real, m2: real, m3: real, spread: real, c: real, p: real, q: real)
    requires n > 0.0 && c == n * m3 && p == m2 * n && q == n * spread && q >= 0.0 && c * c <= p * q
    ensures m3 * m3 <= m2 * spread && spread >= 0.0
  {
    assert c * c == n * n * (m3 * m3);
    assert p * q == n * n * (m2 * spread);
    SignOfScaled(n, m2 * spread - m3 * m3);
    Quotient(n, spread);
  }

  // Hence excess kurtosis is at least skew^2 - 2.
  lemma KurtosisBound(m2: real, m3: real, m4: real, root: real, cube: real)
    requires m2 > 0.0 && root * root == m2 && m3 * m3 <= m2 * (m4 - m2 * m2)
    requires cube == Product(Product(root, root), root) && cube != 0.0 && Product(m2, m2) != 0.0
    ensures Ratio(m4, Product(m2, m2)) - 3.0 >= Square(Ratio(m3, cube)) - 2.0
  {
    RatioTimes(m3, cube);
    RatioTimes(m4, Product(m2, m2));
    CubeSquared(root, m2, cube);
    SkewAgainstTail(m2, m3, m4, cube, Ratio(m3, cube), Ratio(m4, Product(m2, m2)));
  }

  lemma CubeSquared(root: real, m2: real, cube: real)
    requires root * root == m2 && cube == Product(Product(root, root), root)
    ensures cube * cube == m2 * m2 * m2
  {
    assert cube == m2 * root;
    assert cube * cube == (m2 * m2) * (root * root);
  }

  lemma SkewAgainstTail(m2: real, m3: real, m4: real, cube: real, skew: real, tail: real)
    requires m2 > 0.0 && cube * cube == m2 * m2 * m2 && m3 == skew * cube && m4 == tail * (m2 * m2)
    requires m3 * m3 <= m2 * (m4 - m2 * m2)
    ensures skew * skew <= tail - 1.0
  {
    var c3, gap := m2 * m2 * m2, tail - 1.0 - skew * skew;
    assert m3 * m3 == (skew * skew) * c3;
    assert m2 * (m4 - m2 * m2) == (tail - 1.0) * c3;
    assert c3 * gap >= 0.0;
    Quotient(c3, gap);
  }

  // ---- least squares

  // Among all lines the least-squares one has the smallest mean squared error,
  // and its residuals cancel.
  lemma LeastSquares(x: seq<real>, y: seq<real>, mx: real, my: real, slope: real, c: real, a: real, b: real)
    requires |x| == |y| && x != [] && mx == Mean(x) && my == Mean(y)
    requires var sxx := Dot(Centred(x, mx), Centred(x, mx));
             sxx > 0.0 && slope == Ratio(Dot(Centred(x, mx), Centred(y, my)), sxx) && c == my - Product(slope, mx)
    ensures var e, f := Residuals(x, y, slope, c), Residuals(x, y, a, b);
            Sum(e) == 0.0 && Dot(e, e) <= Dot(f, f)
  {
    hide *;
    var n, sx, sy := |x| as real, Sum(x), Sum(y);
    var cxx, cxy := Dot(Centred(x, mx), Centred(x, mx)), Dot(Centred(x, mx), Centred(y, my));
    MeanIs(x);
    MeanIs(y);
    CentredDot(x, x, mx, mx);
    CentredDot(x, y, mx, my);
    ResidualDot(x, y, slope, c);
    ResidualDot(x, y, a, b);
    ResidualSum(x, y, slope, c);
    ResidualsCancel(n, mx, my, sx, sy, slope, c);
    LineGap(n, mx, my, cxx, cxy, Dot(x, x), Dot(x, y), Dot(y, y), sx, sy, slope, c, a, b);
  }

  lemma ResidualsCancel(n: real, mx: real, my: real, sx: real, sy: real, slope: real, c: real)
    requires sx == n * mx && sy == n * my && c == my - Product(slope, mx)
    ensures OffLine(sy, sx, n, slope, c) == 0.0
  {
    assert c * n == n * my - slope * (n * mx);
  }

  lemma LineGap(n: real, mx: real, my: real, cxx: real, cxy: real, sxx: real, sxy: real, syy: real, sx: real, sy: real,
                slope: real, c: real, a: real, b: real)
    requires n > 0.0 && cxx > 0.0 && slope == Ratio(cxy, cxx) && c == my - Product(slope, mx)
    requires sx == n * mx && sy == n * my
    requires cxx == sxx - mx * sx - mx * (sx - n * mx) && cxy == sxy - my * sx - mx * (sy - n * my)
    ensures SquaredError(n, sx, sy, sxx, sxy, syy, slope, c) <= SquaredError(n, sx, sy, sxx, sxy, syy, a, b)
  {
    hide *;
    var cyy := syy - n * my * my;
    RatioTimes(cxy, cxx);
    OffsetVanishes(mx, my, slope, c);
    CompleteSquare(n, mx, my, cxx, cxy, cyy, slope, c, sx, sy, sxx, sxy, syy);
    CompleteSquare(n, mx, my, cxx, cxy, cyy, a, b, sx, sy, sxx, sxy, syy);
    BestSlope(n, cxx, cxy, cyy, slope, my - slope * mx - c, a, my - a * mx - b);
  }

  lemma OffsetVanishes(mx: real, my: real, slope: real, c: real)
    requires c == my - Product(slope, mx)
    ensures my - slope * mx - c == 0.0
  {
  }

  /** Error of a line in centred moments, split into its slope and its offset k at the means. */
  function SplitError(n: real, cxx: real, cxy: real, cyy: real, s: real, k: real): real {
    cyy - 2.0 * s * cxy + s * s * cxx + n * k * k
  }

  lemma CompleteSquare(n: real, mx: real, my: real, cxx: real, cxy: real, cyy: real, s: real, c: real,
                       sx: real, sy: real, sxx: real, sxy: real, syy: real)
    requires sx == n * mx && sy == n * my && cyy == syy - n * my * my
    requires cxx == sxx - mx * sx - mx * (sx - n * mx) && cxy == sxy - my * sx - mx * (sy - n * my)
    ensures SquaredError(n, sx, sy, sxx, sxy, syy, s, c) == SplitError(n, cxx, cxy, cyy, s, my - s * mx - c)
  {
    assert sxx == cxx + n * mx * mx && sxy == cxy + n * mx * my;
    CompletedSquare(n, mx, my, cxx, cxy, cyy, s, c);
  }

  lemma CompletedSquare(n: real, mx: real, my: real, cxx: real, cxy: real, cyy: real, s: real, c: real)
    ensures SquaredError(n, n * mx, n * my, cxx + n * mx * mx, cxy + n * mx * my, cyy + n * my * my, s, c)
         == SplitError(n, cxx, cxy, cyy, s, my - s * mx - c)
  {
  }

  lemma BestSlope(n: real, cxx: real, cxy: real, cyy: real, slope: real, zero: real, a: real, k: real)
    requires n > 0.0 && cxx > 0.0 && slope * cxx == cxy && zero == 0.0
    ensures SplitError(n, cxx, cxy, cyy, slope, zero) <= SplitError(n, cxx, cxy, cyy, a, k)
  {
    assert (a * a * cxx - 2.0 * a * cxy) - (slope * slope * cxx - 2.0 * slope * cxy)
        == cxx * ((a - slope) * (a - slope));
    SquareSign(a - slope);
    SquareSign(k);
    assert n * k * k == n * (k * k) && n * zero * zero == 0.0;
  }

  /** What a line is off by at the means. */
  function Offset(mx: real, my: real, a: real, b: real): real {
    my - a * mx - b
  }

  function ResidualSpread(n: real, syy: real, my: real): real {
    syy - n * my * my
  }

  function SquareError(x: seq<real>, y: seq<real>, a: real, b: real): real
    requires |x| == |y|
  {
    Dot(Residuals(x, y, a, b), Residuals(x, y, a, b))
  }

  lemma SplitFromMoments(n: real, mx: real, my: real, cxx: real, cxy: real, a: real, b: real,
                         sx: real, sy: real, sxx: real, sxy: real, syy: real)
    requires sx == n * mx && sy == n * my
    requires cxx == sxx - mx * sx - mx * (sx - n * mx) && cxy == sxy - my * sx - mx * (sy - n * my)
    ensures SquaredError(n, sx, sy, sxx, sxy, syy, a, b)
            == SplitError(n, cxx, cxy, ResidualSpread(n, syy, my), a, Offset(mx, my, a, b))
  {
    hide SquaredError, SplitError;
    CompleteSquare(n, mx, my, cxx, cxy, ResidualSpread(n, syy, my), a, b, sx, sy, sxx, sxy, syy);
  }

  // The squared error of any line, split into slope and offset.
  lemma LineError(x: seq<real>, y: seq<real>, mx: real, my: real, a: real, b: real)
    requires |x| == |y| && x != [] && mx == Mean(x) && my == Mean(y)
    ensures SquareError(x, y, a, b)
            == SplitError(|x| as real, Dot(Centred(x, mx), Centred(x, mx)), Dot(Centred(x, mx), Centred(y, my)),
                          ResidualSpread(|x| as real, Dot(y, y), my), a, Offset(mx, my, a, b))
  {
    hide Dot, Sum, Mean, Residuals, Centred, SquaredError, SplitError, ResidualSpread, Offset;
    MeanIs(x);
    MeanIs(y);
    CentredDot(x, x, mx, mx);
    CentredDot(x, y, mx, my);
    ResidualDot(x, y, a, b);
    SplitFromMoments(|x| as real, mx, my, Dot(Centred(x, mx), Centred(x, mx)), Dot(Centred(x, mx), Centred(y, my)),
                     a, b, Sum(x), Sum(y), Dot(x, x), Dot(x, y), Dot(y, y));
  }

  lemma OffsetCosts(n: real, cxx: real, cxy: real, cyy: real, s: real, zero: real, k: real)
    requires n > 0.0 && zero == 0.0
    ensures SplitError(n, cxx, cxy, cyy, s, zero) <= SplitError(n, cxx, cxy, cyy, s, k)
  {
    SquareSign(k);
    assert n * k * k == n * (k * k) && n * zero * zero == 0.0;
  }

  lemma NoOffset(mx: real, my: real, s: real, c: real)
    requires c == my - Product(s, mx)
    ensures Offset(mx, my, s, c) == 0.0
  {
  }

  // For any slope, the line through the means leaves residuals that cancel, and no other intercept does better.
  lemma InterceptIsBest(x: seq<real>, y: seq<real>, mx: real, my: real, s: real, c: real, b: real)
    requires |x| == |y| && x != [] && mx == Mean(x) && my == Mean(y) && c == my - Product(s, mx)
    ensures Sum(Residuals(x, y, s, c)) == 0.0 && SquareError(x, y, s, c) <= SquareError(x, y, s, b)
  {
    hide *;
    var n := |x| as real;
    MeanIs(x);
    MeanIs(y);
    ResidualSum(x, y, s, c);
    ResidualsCancel(n, mx, my, Sum(x), Sum(y), s, c);
    LineError(x, y, mx, my, s, c);
    LineError(x, y, mx, my, s, b);
    NoOffset(mx, my, s, c);
    OffsetCosts(n, Dot(Centred(x, mx), Centred(x, mx)), Dot(Centred(x, mx), Centred(y, my)),
                ResidualSpread(n, Dot(y, y), my), s, Offset(mx, my, s, c), Offset(mx, my, s, b));
  }

  lemma FlatBeats(n: real, cxx: real, cyy: real, a: real, k: real, none: real, zero: real)
    requires n > 0.0 && cxx >= 0.0 && none == 0.0 && zero == 0.0
    ensures SplitError(n, cxx, none, cyy, zero, zero) <= SplitError(n, cxx, none, cyy, a, k)
  {
    SquareSign(a);
    SquareSign(k);
    assert n * k * k == n * (k * k) && a * a * cxx == (a * a) * cxx;
  }

  lemma TiltBeats(n: real, cxx: real, cxy: real, cyy: real, slope: real, zero: real)
    requires cxx > 0.0 && slope * cxx == cxy && (cxy > 0.0 || cxy < 0.0) && zero == 0.0
    ensures SplitError(n, cxx, cxy, cyy, slope, zero) < SplitError(n, cxx, cxy, cyy, zero, zero)
  {
    assert slope * cxy == cxx * (slope * slope);
    NonPositiveFactor(slope, cxx);
    NonPositiveFactor(-slope, cxx);
    ProductOfSelf(slope);
    PositiveProduct(cxx, slope * slope);
  }

  lemma NonPositiveFactor(p: real, q: real)
    requires q >= 0.0
    ensures p <= 0.0 ==> p * q <= 0.0
  {
    if p <= 0.0 {
      ProductSign(-p, q);
    }
  }

  lemma NoCrossWithoutSpread(x: seq<real>, y: seq<real>)
    requires |x| == |y| && (Dot(x, y) > 0.0 || Dot(x, y) < 0.0)
    ensures Dot(x, x) > 0.0
  {
    hide Dot;
    CauchySchwarz(x, y);
    SquaresSum(y);
    ProductOfSelf(Dot(x, y));
    NonPositiveFactor(Dot(x, x), Dot(y, y));
  }

  // The flat line through the mean is the best of all lines if and only if the two columns do not vary together.
  lemma FlatLineIsBestIff(x: seq<real>, y: seq<real>, mx: real, my: real, flat: real)
    requires |x| == |y| && x != [] && mx == Mean(x) && my == Mean(y) && flat == 0.0
    ensures (forall a, b :: SquareError(x, y, flat, my) <= SquareError(x, y, a, b))
            <==> Dot(Centred(x, mx), Centred(y, my)) == 0.0
  {
    hide *;
    var n, cxx, cxy := |x| as real, Dot(Centred(x, mx), Centred(x, mx)), Dot(Centred(x, mx), Centred(y, my));
    var cyy := ResidualSpread(n, Dot(y, y), my);
    FlatOffset(mx, my, flat);
    LineError(x, y, mx, my, flat, my);
    if cxy == 0.0 {
      SquaresSum(Centred(x, mx));
      forall a, b ensures SquareError(x, y, flat, my) <= SquareError(x, y, a, b) {
        LineError(x, y, mx, my, a, b);
        FlatBeats(n, cxx, cyy, a, Offset(mx, my, a, b), cxy, flat);
      }
    } else {
      NoCrossWithoutSpread(Centred(x, mx), Centred(y, my));
      var slope := Ratio(cxy, cxx);
      RatioTimes(cxy, cxx);
      var c := my - Product(slope, mx);
      NoOffset(mx, my, slope, c);
      LineError(x, y, mx, my, slope, c);
      TiltBeats(n, cxx, cxy, cyy, slope, flat);
    }
  }

  lemma FlatOffset(mx: real, my: real, flat: real)
    requires flat == 0.0
    ensures Offset(mx, my, flat, my) == flat
  {
  }
}
