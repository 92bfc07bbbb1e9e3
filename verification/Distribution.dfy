/** The return distribution: moments of the tick returns and their order statistics. */
module Distribution {
  import Lanes
  import opened Numbers
  import opened Sums
  import opened Statistics
  import opened TickStore
  import opened Indicators
  import opened WindowStatistics

  // ---- in-place insertion sort

  ghost predicate Sorted(a: seq<real>) {
    forall i, j :: 0 <= i < j < |a| ==> a[i] <= a[j]
  }

  ghost predicate IsSortingOf(t: seq<real>, a: seq<real>) {
    Sorted(t) && multiset(t) == multiset(a)
  }

  /** `before` with the element of index i moved down to index j. */
  ghost predicate HoleAt(now: seq<real>, before: seq<real>, i: nat, j: nat)
    requires j <= i < |before|
  {
    now == before[..j] + [before[i]] + before[j..i] + before[i + 1..]
  }

  lemma HoleKeepsElements(now: seq<real>, before: seq<real>, i: nat, j: nat)
    requires j <= i < |before| && HoleAt(now, before, i, j)
    ensures multiset(now) == multiset(before)
  {
    assert before == before[..j] + before[j..i] + [before[i]] + before[i + 1..];
  }

  method InsertionSort(a: array<real>)
    modifies a
    ensures IsSortingOf(a[..], old(a[..]))
  {
    if a.Length == 0 {
      return;
    }
    for i := 1 to a.Length
      invariant Sorted(a[..i]) && multiset(a[..]) == multiset(old(a[..]))
    {
      Insert(a, i);
    }
    assert a[..a.Length] == a[..];
  }

  // One pass of the outer loop: shift larger elements up, then drop the key into the hole.
  method Insert(a: array<real>, i: nat)
    requires 0 < i < a.Length && Sorted(a[..i])
    modifies a
    ensures Sorted(a[..i + 1]) && multiset(a[..]) == multiset(old(a[..]))
  {
    var k := a[i];
    var j := i;
    ghost var before := a[..];
    while j > 0 && a[j - 1] > k
      invariant 0 <= j <= i
      invariant forall h :: 0 <= h < j || i < h < a.Length ==> a[h] == before[h]
      invariant forall h :: j < h <= i ==> a[h] == before[h - 1] && a[h] > k
    {
      a[j] := a[j - 1];
      j := j - 1;
    }
    a[j] := k;
    HoleFromShifts(a[..], before, i, j);
    HoleKeepsElements(a[..], before, i, j);
    HoleIsSorted(a[..], before, i, j);
  }

  lemma HoleFromShifts(now: seq<real>, before: seq<real>, i: nat, j: nat)
    requires j <= i < |before| == |now| && now[j] == before[i]
    requires forall h :: 0 <= h < j || i < h < |now| ==> now[h] == before[h]
    requires forall h :: j < h <= i ==> now[h] == before[h - 1]
    ensures HoleAt(now, before, i, j)
  {
  }

  lemma HoleIsSorted(now: seq<real>, before: seq<real>, i: nat, j: nat)
    requires j <= i < |before| && HoleAt(now, before, i, j) && Sorted(before[..i])
    requires forall h :: j < h <= i ==> h < |now| && now[h] > before[i]
    requires j > 0 ==> before[j - 1] <= before[i]
    ensures |now| == |before| && Sorted(now[..i + 1])
  {
    var front, key := before[..i], before[i];
    forall g, h | 0 <= g < h < i + 1 ensures now[g] <= now[h] {
      var x := if g < j then front[g] else if g == j then key else front[g - 1];
      var y := if h < j then front[h] else if h == j then key else front[h - 1];
      assert now[g] == x && now[h] == y;
      if g < j <= h {
        assert front[g] <= front[j - 1];
      }
    }
  }

  // ---- returns and moments

  /** Relative changes from one price to the next, skipping steps from a price of (almost) zero. */
  function Returns(w: seq<real>): (r: seq<real>)
    ensures |r| <= |w|
  {
    if |w| < 2 then []
    else
      var i := |w| - 1;
      var prev := w[i - 1];
      Returns(w[..i]) + (if prev > 0.00000001 then [Ratio(w[i] - prev, prev)] else [])
  }

  method CopyReturns(s: Store, n: nat) returns (rets: array<real>, nr: nat)
    requires s.Valid() && 0 < n <= s.Filled()
    ensures fresh(rets) && rets.Length == n && nr <= n && rets[..nr] == Returns(Lasts(s.Window(n)))
  {
    hide Store.Valid, Store.Window, Lasts;
    ghost var w := Lasts(s.Window(n));
    rets, nr := new real[n], 0;
    for i := 1 to n
      invariant nr < i && rets[..nr] == Returns(w[..i])
    {
      assert w[..i + 1][..i] == w[..i];
      var prev := LastAt(s, n, i - 1);
      var cur := LastAt(s, n, i);
      if prev > 0.00000001 {
        rets[nr] := Ratio(cur - prev, prev);
        nr := nr + 1;
      }
    }
    assert w[..n] == w;
  }

  /** The central moment sums of the return loop, by power. */
  datatype Moments = Moments(m2: real, m3: real, m4: real)

  function CentralMoments(r: seq<real>): Moments
    requires r != []
  {
    var d, n := Deviations(r), |r| as real;
    Moments(Ratio(Dot(d, d), n), Ratio(Dot(Squares(d), d), n), Ratio(Dot(Squares(d), Squares(d)), n))
  }

  method ComputeMoments(rets: array<real>, nr: nat, mean: real) returns (m: Moments)
    requires 0 < nr <= rets.Length && mean == Mean(rets[..nr])
    ensures m == CentralMoments(rets[..nr])
  {
    hide Sum, Dot, Product, Ratio, Mean, Square;
    ghost var d := Deviations(rets[..nr]);
    ghost var sq := Squares(d);
    var m2, m3, m4 := 0.0, 0.0, 0.0;
    EmptySums();
    for i := 0 to nr
      invariant m2 == Dot(d[..i], d[..i]) && m3 == Dot(sq[..i], d[..i]) && m4 == Dot(sq[..i], sq[..i])
    {
      var x := rets[i] - mean;
      var x2 := Square(x);
      assert x == d[i] && x2 == sq[i];
      DotStep(d, d, i);
      DotStep(sq, d, i);
      DotStep(sq, sq, i);
      m2, m3, m4 := m2 + Product(x, x), m3 + Product(x2, x), m4 + Product(x2, x2);
    }
    assert d[..nr] == d && sq[..nr] == sq;
    m := Moments(Ratio(m2, nr as real), Ratio(m3, nr as real), Ratio(m4, nr as real));
  }

  // The moments are the means of the second, third and fourth powers of the deviations from the mean.
  lemma MomentsAre(r: seq<real>)
    requires r != []
    ensures var m, d, n := CentralMoments(r), Deviations(r), |r| as real;
            && m.m2 * n == Dot(d, d) && m.m3 * n == Dot(d, Squares(d)) && m.m4 * n == Dot(Squares(d), Squares(d))
            && Sum(d) == 0.0
  {
    hide Sum, Dot, Ratio, Mean, Squares, Centred;
    var d, n := Deviations(r), |r| as real;
    MeanIs(r);
    CentredSum(r, Mean(r));
    DotCommutes(Squares(d), d);
    RatioTimes(Dot(d, d), n);
    RatioTimes(Dot(Squares(d), d), n);
    RatioTimes(Dot(Squares(d), Squares(d)), n);
  }

  // Pearson's inequality between the moments the loop computes.
  lemma MomentsObeyPearson(r: seq<real>)
    requires r != []
    ensures var m := CentralMoments(r);
            m.m3 * m.m3 <= m.m2 * (m.m4 - m.m2 * m.m2) && m.m4 >= m.m2 * m.m2
  {
    hide Sum, Dot, Ratio, Mean, Squares, Centred, Product;
    var d, n, m := Deviations(r), |r| as real, CentralMoments(r);
    MeanIs(r);
    CentredSum(r, Mean(r));
    DotCommutes(Squares(d), d);
    RatioTimes(Dot(d, d), n);
    RatioTimes(Dot(Squares(d), d), n);
    RatioTimes(Dot(Squares(d), Squares(d)), n);
    PearsonMoments(d, m.m2, m.m3, m.m4);
  }

  // ---- the reported statistics

  datatype DistStats = DistStats(mean: real, stddev: real, skew: real, kurt: real, p99: real, p01: real,
                                 tailRatio: real, lastRet: real)

  const NO_STATS := DistStats(0.0, 0.0, 0.0, 0.0, 0.0, 0.0, 0.0, 0.0)

  function Cube(x: real): (c: real)
    ensures x > 0.0 ==> c > 0.0
  {
    if x > 0.0 then
      PositiveProduct(x, x);
      PositiveProduct(Product(x, x), x);
      Product(Product(x, x), x)
    else Product(Product(x, x), x)
  }

  function SkewOf(sqrt: real -> real, m: Moments): real
    requires IsRoot(sqrt)
  {
    if m.m2 > 0.000000000000001 then Ratio(m.m3, Cube(Deviation(sqrt, m.m2))) else 0.0
  }

  function KurtOf(m: Moments): real {
    if m.m2 > 0.000000000000001 then
      PositiveProduct(m.m2, m.m2);
      Ratio(m.m4, Product(m.m2, m.m2)) - 3.0
    else 0.0
  }

  /** Sum of the returns above a cut. */
  function UpperTail(r: seq<real>, cut: real): real {
    if r == [] then 0.0 else UpperTail(r[..|r| - 1], cut) + (if r[|r| - 1] > cut then r[|r| - 1] else 0.0)
  }

  function Negated(r: seq<real>): (m: seq<real>)
    ensures |m| == |r|
  {
    seq(|r|, i requires 0 <= i < |r| => -r[i])
  }

  /** Total size of gains beyond two deviations over that of losses: those of the negated returns. */
  function TailRatioOf(r: seq<real>, stddev: real): real {
    var upper, lower := UpperTail(r, 2.0 * stddev), UpperTail(Negated(r), 2.0 * stddev);
    if lower > 0.000000000001 then Ratio(upper, lower) else 1.0
  }

  lemma TailStep(r: seq<real>, cut: real, i: nat)
    requires i < |r|
    ensures UpperTail(r[..i + 1], cut) == UpperTail(r[..i], cut) + (if r[i] > cut then r[i] else 0.0)
  {
    assert r[..i + 1][..i] == r[..i];
  }

  method ComputeTailRatio(rets: array<real>, nr: nat, stddev: real) returns (ratio: real)
    requires nr <= rets.Length && stddev > 0.0
    ensures ratio == TailRatioOf(rets[..nr], stddev)
  {
    hide UpperTail, Ratio;
    ghost var r, m := rets[..nr], Negated(rets[..nr]);
    var upper, lower := 0.0, 0.0;
    NoTail(r[..0], 2.0 * stddev);
    NoTail(m[..0], 2.0 * stddev);
    for i := 0 to nr
      invariant upper == UpperTail(r[..i], 2.0 * stddev) && lower == UpperTail(m[..i], 2.0 * stddev)
    {
      TailStep(r, 2.0 * stddev, i);
      TailStep(m, 2.0 * stddev, i);
      if rets[i] > 2.0 * stddev {
        upper := upper + rets[i];
      }
      if rets[i] < -2.0 * stddev {
        lower := lower + Abs(rets[i]);
      }
    }
    assert r[..nr] == r && m[..nr] == m;
    ratio := if lower > 0.000000000001 then Ratio(upper, lower) else 1.0;
  }

  lemma NoTail(r: seq<real>, cut: real)
    requires r == []
    ensures UpperTail(r, cut) == 0.0
  {
  }

  method ComputeReturnDistribution(s: Store, period: nat, sqrt: real -> real) returns (d: DistStats)
    requires s.Valid() && IsRoot(sqrt)
    ensures var n := Min(s.Filled(), period);
            var r := Returns(Lasts(s.Window(n)));
            if n < 4 || |r| < 3 then d == NO_STATS
            else
              var m, nr := CentralMoments(r), |r|;
              && d.mean == Mean(r) && d.stddev == Deviation(sqrt, m.m2) && d.lastRet == r[nr - 1]
              && d.skew == SkewOf(sqrt, m) && d.kurt == KurtOf(m) && d.tailRatio == TailRatioOf(r, d.stddev)
              && exists t :: IsSortingOf(t, r) && |t| == nr && d.p01 == t[nr / 100] && d.p99 == t[nr - 1 - nr / 100]
    ensures d.p01 <= d.p99
  {
    hide Store.Valid, Store.Window, Lasts, Returns, CentralMoments, SkewOf, KurtOf, Deviation, Mean, TailRatioOf;
    var n := Min(s.Filled(), period);
    if n < 4 {
      return NO_STATS;
    }
    var rets, nr := CopyReturns(s, n);
    ghost var r := Returns(Lasts(s.Window(n)));
    if nr < 3 {
      return NO_STATS;
    }
    var sum := Lanes.Avx2Sum(rets, nr);
    var mean := Ratio(sum, nr as real);
    MeanIs(r);
    var m := ComputeMoments(rets, nr, mean);
    var p01, p99 := Percentiles(rets, nr);
    var stddev := Deviation(sqrt, m.m2);
    var tailRatio := ComputeTailRatio(rets, nr, stddev);
    d := DistStats(mean, stddev, SkewOf(sqrt, m), KurtOf(m), p99, p01, tailRatio, rets[nr - 1]);
  }

  // The reported skew and kurtosis are the moments over the matching powers of the deviation, the kurtosis less 3.
  lemma ShapeIs(sqrt: real -> real, m: Moments)
    requires IsRoot(sqrt)
    ensures var sd := Deviation(sqrt, m.m2);
            m.m2 > 0.000000000000001 ==>
              && sd > 0.0 && sd * sd == m.m2
              && SkewOf(sqrt, m) * Cube(sd) == m.m3 && Cube(sd) == Product(m.m2, sd)
              && (KurtOf(m) + 3.0) * Product(m.m2, m.m2) == m.m4
    ensures m.m2 <= 0.000000000000001 ==> SkewOf(sqrt, m) == KurtOf(m) == 0.0
  {
    if m.m2 > 0.000000000000001 {
      RootIsPositive(sqrt, m.m2);
      PositiveProduct(m.m2, m.m2);
      RatioTimes(m.m3, Cube(sqrt(m.m2)));
      RatioTimes(m.m4, Product(m.m2, m.m2));
    }
  }

  // The upper tail adds up, return by return, those above the cut.
  lemma {:induction false} TailAdds(a: seq<real>, b: seq<real>, cut: real)
    ensures UpperTail(a + b, cut) == UpperTail(a, cut) + UpperTail(b, cut)
    decreases |b|
  {
    if b == [] {
      assert a + b == a;
    } else {
      assert (a + b)[..|a + b| - 1] == a + b[..|b| - 1];
      TailAdds(a, b[..|b| - 1], cut);
    }
  }

  lemma TailOfOne(x: real, cut: real)
    ensures UpperTail([x], cut) == if x > cut then x else 0.0
  {
    assert [x][..0] == [];
  }

  // The tail ratio times the size of the losses beyond two deviations is that of the gains, when there are such losses.
  lemma TailRatioIs(r: seq<real>, stddev: real)
    ensures var losses := UpperTail(Negated(r), 2.0 * stddev);
            if losses > 0.000000000001 then Product(TailRatioOf(r, stddev), losses) == UpperTail(r, 2.0 * stddev)
            else TailRatioOf(r, stddev) == 1.0
  {
    hide UpperTail, Negated;
    var losses := UpperTail(Negated(r), 2.0 * stddev);
    if losses > 0.000000000001 {
      RatioTimes(UpperTail(r, 2.0 * stddev), losses);
    }
  }

  // Each return leads from one price to the next.
  lemma {:induction false} ReturnsLead(w: seq<real>, i: nat)
    requires i + 1 < |w| && forall k :: 0 <= k < |w| ==> w[k] > 0.00000001
    ensures |Returns(w)| == |w| - 1 && w[i + 1] == w[i] + Product(Returns(w)[i], w[i])
    decreases |w|
  {
    var n := |w| - 1;
    RatioTimes(w[n] - w[n - 1], w[n - 1]);
    if n > 1 {
      ReturnsLead(w[..n], if i == n - 1 then 0 else i);
    }
  }

  // The sort of a copy, and the two order statistics read from it.
  method Percentiles(rets: array<real>, nr: nat) returns (p01: real, p99: real)
    requires 0 < nr <= rets.Length
    ensures exists t :: IsSortingOf(t, rets[..nr]) && |t| == nr && p01 == t[nr / 100] && p99 == t[nr - 1 - nr / 100]
    ensures p01 <= p99
  {
    var sorted := new real[nr];
    for i := 0 to nr
      invariant forall j :: 0 <= j < i ==> sorted[j] == rets[j]
    {
      sorted[i] := rets[i];
    }
    assert sorted[..] == rets[..nr];
    InsertionSort(sorted);
    SortingKeepsLength(sorted[..], rets[..nr]);
    p01, p99 := sorted[nr / 100], sorted[nr - 1 - nr / 100];
    assert sorted[..][nr / 100] == p01 && sorted[..][nr - 1 - nr / 100] == p99;
  }

  lemma SortingKeepsLength(t: seq<real>, a: seq<real>)
    requires IsSortingOf(t, a)
    ensures |t| == |a|
  {
    assert |multiset(t)| == |t| && |multiset(a)| == |a|;
  }

  // The reported excess kurtosis is never below the squared skew minus two.
  lemma KurtosisAboveSkew(r: seq<real>, sqrt: real -> real)
    requires r != [] && IsRoot(sqrt) && CentralMoments(r).m2 > 0.000000000000001
    ensures var m := CentralMoments(r);
            KurtOf(m) >= Square(SkewOf(sqrt, m)) - 2.0
  {
    hide CentralMoments, Product, Ratio, Square;
    var m := CentralMoments(r);
    MomentsObeyPearson(r);
    RootIsPositive(sqrt, m.m2);
    PositiveProduct(m.m2, m.m2);
    KurtosisBound(m.m2, m.m3, m.m4, sqrt(m.m2), Cube(sqrt(m.m2)));
  }
}
