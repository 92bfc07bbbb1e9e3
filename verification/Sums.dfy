/** Finite sums over sequences of reals and the algebra the statistics rest on. */
module Sums {
  // Products and quotients are named so that proofs about loops can treat them as symbols.
  function Product(x: real, y: real): real {
    x * y
  }

  function Ratio(x: real, y: real): real
    requires y != 0.0
  {
    x / y
  }

  function Power(f: real, n: nat): real {
    if n == 0 then 1.0 else Product(f, Power(f, n - 1))
  }

  function Sum(a: seq<real>): real {
    if a == [] then 0.0 else Sum(a[..|a| - 1]) + a[|a| - 1]
  }

  function Dot(a: seq<real>, b: seq<real>): real
    requires |a| == |b|
  {
    if a == [] then 0.0 else Dot(a[..|a| - 1], b[..|b| - 1]) + Product(a[|a| - 1], b[|b| - 1])
  }

  function Centred(a: seq<real>, m: real): (c: seq<real>)
    ensures |c| == |a|
  {
    seq(|a|, i requires 0 <= i < |a| => a[i] - m)
  }

  function Square(x: real): real {
    x * x
  }

  function Squares(a: seq<real>): (c: seq<real>)
    ensures |c| == |a|
  {
    seq(|a|, i requires 0 <= i < |a| => Square(a[i]))
  }

  function Residual(x: real, y: real, slope: real, intercept: real): real {
    y - (slope * x + intercept)
  }

  /** What is left of y after the line slope * x + intercept. */
  function Residuals(x: seq<real>, y: seq<real>, slope: real, intercept: real): (e: seq<real>)
    requires |x| == |y|
    ensures |e| == |x|
  {
    seq(|x|, i requires 0 <= i < |x| => Residual(x[i], y[i], slope, intercept))
  }

  function Mean(a: seq<real>): real
    requires a != []
  {
    Ratio(Sum(a), |a| as real)
  }

  lemma EmptySums()
    ensures Sum([]) == 0.0 && Dot([], []) == 0.0
  {
  }

  lemma MeanIs(a: seq<real>)
    requires a != []
    ensures Mean(a) == Ratio(Sum(a), |a| as real) && Sum(a) == |a| as real * Mean(a)
  {
  }

  lemma RatioTimes(x: real, y: real)
    requires y != 0.0
    ensures Ratio(x, y) * y == x
  {
  }

  lemma SumStep(a: seq<real>, i: nat)
    requires i < |a|
    ensures Sum(a[..i + 1]) == Sum(a[..i]) + a[i]
  {
    assert a[..i + 1][..i] == a[..i];
  }

  lemma DotStep(a: seq<real>, b: seq<real>, i: nat)
    requires |a| == |b| && i < |a|
    ensures Dot(a[..i + 1], b[..i + 1]) == Dot(a[..i], b[..i]) + Product(a[i], b[i])
  {
    assert a[..i + 1][..i] == a[..i] && b[..i + 1][..i] == b[..i];
  }

  lemma {:induction false} CentredSum(a: seq<real>, m: real)
    ensures Sum(Centred(a, m)) == Sum(a) - |a| as real * m
    decreases |a|
  {
    if a != [] {
      var front := a[..|a| - 1];
      CentredSum(front, m);
      assert Centred(a, m)[..|a| - 1] == Centred(front, m);
    }
  }

  lemma {:induction false} DotCommutes(a: seq<real>, b: seq<real>)
    requires |a| == |b|
    ensures Dot(a, b) == Dot(b, a)
    decreases |a|
  {
    if a != [] {
      DotCommutes(a[..|a| - 1], b[..|b| - 1]);
    }
  }

  lemma {:induction false} CentredAgainst(a: seq<real>, p: real, v: seq<real>)
    requires |a| == |v|
    ensures Dot(Centred(a, p), v) == Dot(a, v) - p * Sum(v)
    decreases |a|
  {
    if a != [] {
      var n := |a| - 1;
      CentredAgainst(a[..n], p, v[..n]);
      assert Centred(a, p)[..n] == Centred(a[..n], p);
      assert (a[n] - p) * v[n] == a[n] * v[n] - p * v[n];
    }
  }

  lemma CentredDot(a: seq<real>, b: seq<real>, p: real, q: real)
    requires |a| == |b|
    ensures Dot(Centred(a, p), Centred(b, q)) == Dot(a, b) - q * Sum(a) - p * (Sum(b) - |a| as real * q)
  {
    hide *;
    CentredAgainst(a, p, Centred(b, q));
    DotCommutes(a, Centred(b, q));
    CentredAgainst(b, q, a);
    DotCommutes(a, b);
    CentredSum(b, q);
  }

  /** The sum of squared residuals of a line as a function of the raw moments. */
  function SquaredError(n: real, sx: real, sy: real, sxx: real, sxy: real, syy: real, s: real, c: real): real {
    syy - 2.0 * s * sxy + s * s * sxx - 2.0 * c * sy + 2.0 * s * c * sx + n * c * c
  }

  /** y minus the line, for sums as well as for single points. */
  function OffLine(y: real, x: real, one: real, s: real, c: real): real {
    y - s * x - c * one
  }

  lemma OffLineAdds(y: real, x: real, one: real, dy: real, dx: real, d: real, s: real, c: real)
    ensures OffLine(y + dy, x + dx, one + d, s, c) == OffLine(y, x, one, s, c) + OffLine(dy, dx, d, s, c)
  {
    assert s * (x + dx) == s * x + s * dx && c * (one + d) == c * one + c * d;
  }

  lemma {:induction false} ResidualSum(x: seq<real>, y: seq<real>, s: real, c: real)
    requires |x| == |y|
    ensures Sum(Residuals(x, y, s, c)) == OffLine(Sum(y), Sum(x), |x| as real, s, c)
    decreases |x|
  {
    if x != [] {
      var n := |x| - 1;
      ResidualSum(x[..n], y[..n], s, c);
      assert Residuals(x, y, s, c)[..n] == Residuals(x[..n], y[..n], s, c);
      assert Residual(x[n], y[n], s, c) == OffLine(y[n], x[n], 1.0, s, c);
      OffLineAdds(Sum(y[..n]), Sum(x[..n]), n as real, y[n], x[n], 1.0, s, c);
    }
  }

  lemma ResidualTimes(x: real, y: real, v: real, s: real, c: real)
    ensures Product(Residual(x, y, s, c), v) == OffLine(Product(y, v), Product(x, v), v, s, c)
  {
    assert (y - (s * x + c)) * v == y * v - s * (x * v) - c * v;
  }

  lemma {:induction false} ResidualAgainst(x: seq<real>, y: seq<real>, s: real, c: real, v: seq<real>)
    requires |x| == |y| == |v|
    ensures Dot(Residuals(x, y, s, c), v) == OffLine(Dot(y, v), Dot(x, v), Sum(v), s, c)
    decreases |x|
  {
    if x != [] {
      hide Product, OffLine, Residual;
      var n := |x| - 1;
      ResidualAgainst(x[..n], y[..n], s, c, v[..n]);
      assert Residuals(x, y, s, c)[..n] == Residuals(x[..n], y[..n], s, c);
      ResidualTimes(x[n], y[n], v[n], s, c);
      OffLineAdds(Dot(y[..n], v[..n]), Dot(x[..n], v[..n]), Sum(v[..n]),
                  Product(y[n], v[n]), Product(x[n], v[n]), v[n], s, c);
    } else {
      NothingOffLine(s, c);
    }
  }

  lemma NothingOffLine(s: real, c: real)
    ensures OffLine(0.0, 0.0, 0.0, s, c) == 0.0
  {
  }

  lemma ResidualDot(x: seq<real>, y: seq<real>, s: real, c: real)
    requires |x| == |y|
    ensures var e := Residuals(x, y, s, c);
            Dot(e, e) == SquaredError(|x| as real, Sum(x), Sum(y), Dot(x, x), Dot(x, y), Dot(y, y), s, c)
  {
    hide *;
    var e := Residuals(x, y, s, c);
    ResidualAgainst(x, y, s, c, e);
    ResidualAgainst(x, y, s, c, x);
    ResidualAgainst(x, y, s, c, y);
    ResidualSum(x, y, s, c);
    DotCommutes(x, e);
    DotCommutes(y, e);
    DotCommutes(x, y);
    ExpandSquare(|x| as real, Sum(x), Sum(y), Dot(x, x), Dot(x, y), Dot(y, y), s, c);
  }

  lemma ExpandSquare(n: real, sx: real, sy: real, sxx: real, sxy: real, syy: real, s: real, c: real)
    ensures OffLine(OffLine(syy, sxy, sy, s, c), OffLine(sxy, sxx, sx, s, c), OffLine(sy, sx, n, s, c), s, c)
         == SquaredError(n, sx, sy, sxx, sxy, syy, s, c)
  {
  }

  lemma {:induction false} SquaresSum(a: seq<real>)
    ensures Sum(Squares(a)) == Dot(a, a) && Dot(a, a) >= 0.0
    decreases |a|
  {
    if a != [] {
      var n := |a| - 1;
      SquaresSum(a[..n]);
      assert Squares(a)[..n] == Squares(a[..n]);
    }
  }

  // Cauchy-Schwarz.
  lemma {:induction false} CauchySchwarz(a: seq<real>, b: seq<real>)
    requires |a| == |b|
    ensures Dot(a, b) * Dot(a, b) <= Dot(a, a) * Dot(b, b)
    decreases |a|
  {
    if a != [] {
      var n := |a| - 1;
      CauchySchwarz(a[..n], b[..n]);
      SquaresSum(a[..n]);
      SquaresSum(b[..n]);
      CauchySchwarzStep(Dot(a[..n], b[..n]), Dot(a[..n], a[..n]), Dot(b[..n], b[..n]), a[n], b[n]);
    }
  }

  lemma Quotient(p: real, f: real)
    requires p > 0.0 && p * f >= 0.0
    ensures f >= 0.0
  {
  }

  lemma SquareSign(s: real)
    ensures s * s >= 0.0
  {
    if s < 0.0 {
      assert s * s == (-s) * (-s);
    }
  }

  lemma MeanInequality(a: real, b: real, c: real)
    requires a >= 0.0 && b >= 0.0 && c * c <= a * b
    ensures 2.0 * c <= a + b
  {
    if a + b + 2.0 * c > 0.0 {
      SquareSign(a - b);
      assert (a + b + 2.0 * c) * (a + b - 2.0 * c) == (a - b) * (a - b) + 4.0 * (a * b - c * c);
      Quotient(a + b + 2.0 * c, a + b - 2.0 * c);
    }
  }

  lemma CauchySchwarzStep(s: real, p: real, q: real, x: real, y: real)
    requires s * s <= p * q && p >= 0.0 && q >= 0.0
    ensures (s + x * y) * (s + x * y) <= (p + x * x) * (q + y * y)
  {
    var a, b, c := p * (y * y), q * (x * x), s * (x * y);
    var xy := x * y;
    SquareSign(x);
    SquareSign(y);
    SquareSign(xy);
    assert a >= 0.0 && b >= 0.0;
    assert c * c <= a * b by {
      assert c * c == (s * s) * (xy * xy);
      assert a * b == (p * q) * (xy * xy);
      assert (p * q - s * s) * (xy * xy) >= 0.0;
    }
    MeanInequality(a, b, c);
    assert (s + xy) * (s + xy) == s * s + 2.0 * c + xy * xy;
    assert (p + x * x) * (q + y * y) == p * q + a + b + xy * xy;
  }

  lemma ProductSign(a: real, b: real)
    requires a >= 0.0 && b >= 0.0
    ensures a * b >= 0.0
  {
  }

  lemma NonNegativeProduct(a: real, b: real)
    requires a >= 0.0 && b >= 0.0
    ensures Product(a, b) >= 0.0
  {
    ProductSign(a, b);
  }

  lemma ProductOfSelf(c: real)
    ensures Product(c, c) >= 0.0
    ensures c > 0.0 || c < 0.0 ==> Product(c, c) > 0.0
  {
    if c < 0.0 {
      PositiveProduct(-c, -c);
    } else if c > 0.0 {
      PositiveProduct(c, c);
    }
  }

  lemma PositiveProduct(c: real, d: real)
    requires c > 0.0 && d > 0.0
    ensures Product(c, d) > 0.0
  {
  }
}
