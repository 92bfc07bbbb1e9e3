/** Exponential smoothing and weighted means stay inside the hull of their inputs. */
module Smoothing {
  import opened Sums

  ghost predicate Within(a: seq<real>, lo: real, hi: real) {
    forall i :: 0 <= i < |a| ==> lo <= a[i] <= hi
  }

  /** One step of an exponential average. */
  function Blended(alpha: real, x: real, y: real): real {
    alpha * x + (1.0 - alpha) * y
  }

  function Smooth(alpha: real, seed: real, xs: seq<real>): real {
    if xs == [] then seed
    else Blended(alpha, xs[|xs| - 1], Smooth(alpha, seed, xs[..|xs| - 1]))
  }

  /** Mean of the first `period` values, smoothed over the rest. */
  function SeededSmooth(alpha: real, period: nat, xs: seq<real>): real
    requires 0 < period <= |xs|
  {
    Smooth(alpha, Mean(xs[..period]), xs[period..])
  }

  // A step covers the share alpha of the way to the new value.
  lemma BlendedMoves(alpha: real, x: real, y: real)
    ensures Blended(alpha, x, y) - y == alpha * (x - y)
  {
  }

  /** alpha * (1 - alpha)^k for the value k steps back, newest last. */
  function Weights(alpha: real, n: nat): (w: seq<real>)
    ensures |w| == n
  {
    if n == 0 then [] else Scaled(1.0 - alpha, Weights(alpha, n - 1)) + [alpha]
  }

  function Scaled(f: real, a: seq<real>): (s: seq<real>)
    ensures |s| == |a|
  {
    seq(|a|, i requires 0 <= i < |a| => Product(f, a[i]))
  }

  lemma {:induction false} ScaledDot(f: real, a: seq<real>, b: seq<real>)
    requires |a| == |b|
    ensures Dot(Scaled(f, a), b) == Product(f, Dot(a, b))
    decreases |a|
  {
    if a != [] {
      var n := |a| - 1;
      ScaledDot(f, a[..n], b[..n]);
      assert Scaled(f, a)[..n] == Scaled(f, a[..n]);
      ProductRegroups(f, Dot(a[..n], b[..n]), a[n], b[n]);
    } else {
      ZeroScaled(f);
    }
  }

  lemma ProductRegroups(f: real, d: real, x: real, y: real)
    ensures Product(f, d) + Product(Product(f, x), y) == Product(f, d + Product(x, y))
  {
    assert (f * x) * y == f * (x * y);
  }

  lemma ZeroScaled(f: real)
    ensures Product(f, 0.0) == 0.0
  {
  }

  lemma BlendAlgebra(alpha: real, x: real, power: real, seed: real, d: real)
    ensures Blended(alpha, x, Product(power, seed) + d)
            == Product(Product(1.0 - alpha, power), seed) + (Product(1.0 - alpha, d) + Product(alpha, x))
  {
    assert ((1.0 - alpha) * power) * seed == (1.0 - alpha) * (power * seed);
  }

  // The loop in closed form: the seed keeps the share (1 - alpha)^n, and the value k steps back weighs
  // alpha * (1 - alpha)^k.
  lemma {:induction false} SmoothIsWeightedSum(alpha: real, seed: real, xs: seq<real>)
    ensures Smooth(alpha, seed, xs) == Product(Power(1.0 - alpha, |xs|), seed) + Dot(Weights(alpha, |xs|), xs)
    decreases |xs|
  {
    hide Product, Blended, Scaled;
    if xs == [] {
      SeedAlone(alpha, seed);
    } else {
      var n, front := |xs| - 1, xs[..|xs| - 1];
      SmoothIsWeightedSum(alpha, seed, front);
      var w := Scaled(1.0 - alpha, Weights(alpha, n));
      assert Weights(alpha, n + 1)[..n] == w;
      ScaledDot(1.0 - alpha, Weights(alpha, n), front);
      BlendAlgebra(alpha, xs[n], Power(1.0 - alpha, n), seed, Dot(Weights(alpha, n), front));
    }
  }

  lemma SeededSmoothIsWeightedSum(alpha: real, period: nat, xs: seq<real>)
    requires 0 < period <= |xs|
    ensures SeededSmooth(alpha, period, xs)
            == Product(Power(1.0 - alpha, |xs| - period), Mean(xs[..period]))
               + Dot(Weights(alpha, |xs| - period), xs[period..])
  {
    hide Smooth, Power, Weights, Product, Dot, Mean;
    SmoothIsWeightedSum(alpha, Mean(xs[..period]), xs[period..]);
  }

  lemma SeedAlone(alpha: real, seed: real)
    ensures Product(Power(1.0 - alpha, 0), seed) == seed && Dot(Weights(alpha, 0), []) == 0.0
  {
  }

  lemma NothingToSmooth(alpha: real, seed: real)
    ensures Smooth(alpha, seed, []) == seed
  {
  }

  lemma SmoothStep(alpha: real, seed: real, xs: seq<real>, from: nat, i: nat)
    requires from <= i < |xs|
    ensures Smooth(alpha, seed, xs[from..i + 1]) == Blended(alpha, xs[i], Smooth(alpha, seed, xs[from..i]))
  {
    assert xs[from..i + 1][..i - from] == xs[from..i];
  }

  lemma SeededSmoothIs(alpha: real, period: nat, xs: seq<real>)
    requires 0 < period <= |xs|
    ensures SeededSmooth(alpha, period, xs) == Smooth(alpha, Mean(xs[..period]), xs[period..])
  {
  }

  lemma BlendedHull(alpha: real, x: real, y: real, lo: real, hi: real)
    requires 0.0 <= alpha <= 1.0 && lo <= x <= hi && lo <= y <= hi
    ensures lo <= Blended(alpha, x, y) <= hi
  {
    ProductSign(alpha, x - lo);
    ProductSign(1.0 - alpha, y - lo);
    ProductSign(alpha, hi - x);
    ProductSign(1.0 - alpha, hi - y);
  }

  lemma {:induction false} SmoothHull(alpha: real, seed: real, xs: seq<real>, lo: real, hi: real)
    requires 0.0 <= alpha <= 1.0 && lo <= seed <= hi && Within(xs, lo, hi)
    ensures lo <= Smooth(alpha, seed, xs) <= hi
    decreases |xs|
  {
    if xs != [] {
      SmoothHull(alpha, seed, xs[..|xs| - 1], lo, hi);
      BlendedHull(alpha, xs[|xs| - 1], Smooth(alpha, seed, xs[..|xs| - 1]), lo, hi);
    }
  }

  lemma HullStep(n: real, sum: real, x: real, lo: real, hi: real)
    requires n * lo <= sum <= n * hi && lo <= x <= hi
    ensures (n + 1.0) * lo <= sum + x <= (n + 1.0) * hi
  {
  }

  lemma {:induction false} SumHull(a: seq<real>, lo: real, hi: real)
    requires Within(a, lo, hi)
    ensures |a| as real * lo <= Sum(a) <= |a| as real * hi
    decreases |a|
  {
    hide Sum;
    if a == [] {
      EmptySums();
    } else {
      var n := |a| - 1;
      SumHull(a[..n], lo, hi);
      assert a[..n + 1] == a;
      SumStep(a, n);
      HullStep(n as real, Sum(a[..n]), a[n], lo, hi);
    }
  }

  lemma QuotientHull(s: real, n: real, lo: real, hi: real)
    requires n > 0.0 && n * lo <= s <= n * hi
    ensures lo <= Ratio(s, n) <= hi
  {
    var q := Ratio(s, n);
    assert n * (q - lo) == s - n * lo && n * (hi - q) == n * hi - s by { assert n * q == s; }
    Quotient(n, q - lo);
    Quotient(n, hi - q);
  }

  lemma MeanHull(a: seq<real>, lo: real, hi: real)
    requires a != [] && Within(a, lo, hi)
    ensures lo <= Mean(a) <= hi
  {
    SumHull(a, lo, hi);
    QuotientHull(Sum(a), |a| as real, lo, hi);
  }

  lemma SeededSmoothHull(alpha: real, period: nat, xs: seq<real>, lo: real, hi: real)
    requires 0 < period <= |xs| && 0.0 <= alpha <= 1.0 && Within(xs, lo, hi)
    ensures lo <= SeededSmooth(alpha, period, xs) <= hi
  {
    MeanHull(xs[..period], lo, hi);
    SmoothHull(alpha, Mean(xs[..period]), xs[period..], lo, hi);
  }

  lemma WeightedStep(sum: real, dot: real, v: real, p: real, lo: real, hi: real)
    requires lo * sum <= dot <= hi * sum && lo <= p <= hi && v >= 0.0
    ensures lo * (sum + v) <= dot + Product(p, v) <= hi * (sum + v)
  {
    ProductSign(p - lo, v);
    ProductSign(hi - p, v);
  }

  // A mean weighted by non-negative weights stays in the hull of the values.
  lemma {:induction false} WeightedHull(p: seq<real>, v: seq<real>, lo: real, hi: real)
    requires |p| == |v| && Within(p, lo, hi) && forall i :: 0 <= i < |v| ==> v[i] >= 0.0
    ensures lo * Sum(v) <= Dot(p, v) <= hi * Sum(v)
    decreases |p|
  {
    hide Sum, Dot, Product;
    if p == [] {
      EmptySums();
      ZeroHull(Sum(v), Dot(p, v), lo, hi);
    } else {
      var n := |p| - 1;
      WeightedHull(p[..n], v[..n], lo, hi);
      assert p[..n + 1] == p && v[..n + 1] == v;
      SumStep(v, n);
      DotStep(p, v, n);
      WeightedStep(Sum(v[..n]), Dot(p[..n], v[..n]), v[n], p[n], lo, hi);
    }
  }

  lemma ZeroHull(sum: real, dot: real, lo: real, hi: real)
    requires sum == 0.0 && dot == 0.0
    ensures lo * sum <= dot <= hi * sum
  {
  }
}
