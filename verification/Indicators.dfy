/** The price indicators, each a loop over the ring that refines a function of the last ticks. */
module Indicators {
  import opened Numbers
  import opened Sums
  import opened Smoothing
  import opened Statistics
  import opened TickStore

  type Period = p: nat | p > 0 witness 1

  const ATR_PERIOD: Period := 14

  function WilderAlpha(period: nat): (alpha: real)
    requires period > 0
    ensures 0.0 < alpha <= 1.0
  {
    1.0 / period as real
  }

  // The two smoothing shares.
  lemma AlphasAre(period: nat)
    requires period > 0
    ensures WilderAlpha(period) * period as real == 1.0 && EmaAlpha(period) * (period + 1) as real == 2.0
  {
  }

  // ---- VWAP

  /** Standard deviation, zero when rounding would leave no spread. */
  function StdDev(sqrt: real -> real, variance: real): real {
    if variance > 0.0 then sqrt(variance) else 0.0
  }

  // The price and volume of the i-th of the last n ticks.
  method LastAt(s: Store, n: nat, i: nat) returns (price: real)
    requires s.Valid() && i < n <= s.Filled()
    ensures price == Lasts(s.Window(n))[i]
  {
    hide Store.Valid;
    var idx := s.SlotOf(n, i);
    price := s.lasts[idx];
  }

  method VolumeAt(s: Store, n: nat, i: nat) returns (volume: real)
    requires s.Valid() && i < n <= s.Filled()
    ensures volume == Volumes(s.Window(n))[i]
  {
    hide Store.Valid;
    var idx := s.SlotOf(n, i);
    volume := s.volumes[idx];
  }

  method VwapSums(s: Store, n: nat) returns (pvSum: real, vSum: real, pSum: real, p2Sum: real)
    requires s.Valid() && n <= s.Filled()
    ensures var p, v := Lasts(s.Window(n)), Volumes(s.Window(n));
            pvSum == Dot(p, v) && vSum == Sum(v) && pSum == Sum(p) && p2Sum == Dot(p, p)
  {
    hide *;
    EmptySums();
    ghost var p, v := Lasts(s.Window(n)), Volumes(s.Window(n));
    pvSum, vSum, pSum, p2Sum := 0.0, 0.0, 0.0, 0.0;
    for i := 0 to n
      invariant pvSum == Dot(p[..i], v[..i]) && vSum == Sum(v[..i])
      invariant pSum == Sum(p[..i]) && p2Sum == Dot(p[..i], p[..i])
    {
      var price := LastAt(s, n, i);
      var volume := VolumeAt(s, n, i);
      DotStep(p, v, i);
      SumStep(v, i);
      SumStep(p, i);
      DotStep(p, p, i);
      pvSum, vSum := pvSum + Product(price, volume), vSum + volume;
      pSum, p2Sum := pSum + price, p2Sum + Product(price, price);
    }
    assert p[..n] == p && v[..n] == v;
  }

  method ComputeVwap(s: Store, sessionTicks: nat, sqrt: real -> real)
    returns (vwap: real, deviation: real, stddev: real)
    requires s.Valid()
    ensures var n := Min(sessionTicks, s.Filled());
            var p, v := Lasts(s.Window(n)), Volumes(s.Window(n));
            if sessionTicks == 0 || Sum(v) < 0.0000000001 then vwap == deviation == stddev == 0.0
            else
              && n > 0 && vwap == Ratio(Dot(p, v), Sum(v)) && deviation == p[n - 1] - vwap
              && stddev == StdDev(sqrt, Variance(p))
  {
    hide *;
    if sessionTicks == 0 {
      return 0.0, 0.0, 0.0;
    }
    var n := Min(sessionTicks, s.Filled());
    ghost var p := Lasts(s.Window(n));
    var pvSum, vSum, pSum, p2Sum := VwapSums(s, n);
    EmptySums();
    assert n == 0 ==> Volumes(s.Window(n)) == [];
    if vSum < 0.0000000001 {
      return 0.0, 0.0, 0.0;
    }
    vwap := Ratio(pvSum, vSum);
    var last := LastAt(s, n, n - 1);
    var variance := VarianceFrom(n as real, pSum, p2Sum);
    VarianceIs(p);
    deviation := last - vwap;
    stddev := StdDev(sqrt, variance);
  }

  // With non-negative volumes the VWAP lies between the lowest and highest price of its window.
  lemma VwapHull(p: seq<real>, v: seq<real>, lo: real, hi: real)
    requires |p| == |v| && Within(p, lo, hi) && forall i :: 0 <= i < |v| ==> v[i] >= 0.0
    requires Sum(v) >= 0.0000000001
    ensures lo <= Ratio(Dot(p, v), Sum(v)) <= hi
  {
    hide *;
    WeightedHull(p, v, lo, hi);
    QuotientHull(Dot(p, v), Sum(v), lo, hi);
  }

  // ---- EMA

  function EmaAlpha(period: nat): (alpha: real)
    ensures 0.0 < alpha <= 2.0
    ensures period > 0 ==> alpha <= 1.0
  {
    2.0 / (period + 1) as real
  }

  method SeedMean(s: Store, n: nat, period: nat) returns (mean: real)
    requires s.Valid() && 0 < period <= n <= s.Filled()
    ensures mean == Mean(Lasts(s.Window(n))[..period])
  {
    hide *;
    EmptySums();
    ghost var w := Lasts(s.Window(n));
    mean := 0.0;
    for i := 0 to period
      invariant mean == Sum(w[..i])
    {
      var price := LastAt(s, n, i);
      SumStep(w, i);
      mean := mean + price;
    }
    mean := Ratio(mean, period as real);
    MeanIs(w[..period]);
  }

  method ComputeEma(s: Store, period: nat) returns (ema: real)
    requires s.Valid() && period > 0
    ensures var n := Min(s.Filled(), period * 3);
            ema == if n < period then 0.0 else SeededSmooth(EmaAlpha(period), period, Lasts(s.Window(n)))
  {
    hide *;
    var n := Min(s.Filled(), period * 3);
    if n < period {
      return 0.0;
    }
    var alpha := EmaAlpha(period);
    ghost var w := Lasts(s.Window(n));
    ema := SeedMean(s, n, period);
    ghost var seed := ema;
    NothingToSmooth(alpha, seed);
    assert w[period..period] == [];
    for i := period to n
      invariant ema == Smooth(alpha, seed, w[period..i])
    {
      var price := LastAt(s, n, i);
      SmoothStep(alpha, seed, w, period, i);
      ema := Blended(alpha, price, ema);
    }
    assert w[period..n] == w[period..];
    SeededSmoothIs(alpha, period, w);
  }

  lemma EmaHull(w: seq<real>, period: nat, lo: real, hi: real)
    requires 0 < period <= |w| && Within(w, lo, hi)
    ensures lo <= SeededSmooth(EmaAlpha(period), period, w) <= hi
  {
    SeededSmoothHull(EmaAlpha(period), period, w, lo, hi);
  }

  // ---- ATR

  function TrueRange(prev: Row, cur: Row): real {
    var hi, lo, pc := cur.tick.ask, cur.tick.bid, prev.tick.last;
    Max(hi - lo, Max(Abs(hi - pc), Abs(lo - pc)))
  }

  // The true range spans the tick and the previous price.
  lemma TrueRangeSpans(prev: Row, cur: Row)
    requires cur.tick.bid <= cur.tick.ask
    ensures TrueRange(prev, cur)
            == Max(cur.tick.ask, prev.tick.last) - MinReal(cur.tick.bid, prev.tick.last)
  {
  }

  function TrueRanges(rows: seq<Row>): (t: seq<real>)
    ensures |t| == if rows == [] then 0 else |rows| - 1
  {
    seq(if rows == [] then 0 else |rows| - 1, i requires 0 <= i < |rows| - 1 => TrueRange(rows[i], rows[i + 1]))
  }

  function Atr(ranges: seq<real>): real
    requires |ranges| >= ATR_PERIOD
  {
    SeededSmooth(WilderAlpha(ATR_PERIOD), ATR_PERIOD, ranges)
  }

  method RangeAt(s: Store, n: nat, i: nat) returns (tr: real)
    requires s.Valid() && 0 < i < n <= s.Filled()
    ensures tr == TrueRanges(s.Window(n))[i - 1]
  {
    hide Store.Valid;
    var cur := s.SlotOf(n, i);
    var prev := s.SlotOf(n, i - 1);
    var hi, lo, pc := s.asks[cur], s.bids[cur], s.lasts[prev];
    tr := Max(hi - lo, Max(Abs(hi - pc), Abs(lo - pc)));
  }

  method SeedAtr(s: Store, n: nat) returns (atr: real)
    requires s.Valid() && ATR_PERIOD < n <= s.Filled()
    ensures atr == Mean(TrueRanges(s.Window(n))[..ATR_PERIOD])
  {
    hide *;
    EmptySums();
    ghost var t := TrueRanges(s.Window(n));
    atr := 0.0;
    for i := 1 to ATR_PERIOD + 1
      invariant atr == Sum(t[..i - 1])
    {
      var tr := RangeAt(s, n, i);
      SumStep(t, i - 1);
      atr := atr + tr;
    }
    atr := Ratio(atr, ATR_PERIOD as real);
    MeanIs(t[..ATR_PERIOD]);
  }

  // `prevAtr` is the value before the last two smoothing steps, not before the last one:
  // the source saves it on reaching index n - 2 and then still applies that step.
  method ComputeAtr(s: Store) returns (atr: real, prevAtr: real, expanding: bool)
    requires s.Valid()
    ensures var n := s.Filled();
            if n < ATR_PERIOD + 1 then atr == prevAtr == 0.0 && !expanding
            else
              var t := TrueRanges(s.Window(n));
              && atr == Atr(t)
              && prevAtr == Atr(t[..if n < ATR_PERIOD + 3 then ATR_PERIOD else n - 3])
              && (expanding <==> atr > prevAtr)
  {
    hide *;
    var n := s.Filled();
    if n < ATR_PERIOD + 1 {
      return 0.0, 0.0, false;
    }
    var alpha := WilderAlpha(ATR_PERIOD);
    ghost var t := TrueRanges(s.Window(n));
    atr := SeedAtr(s, n);
    prevAtr := atr;
    ghost var seed, saved := atr, ATR_PERIOD;
    NothingToSmooth(alpha, seed);
    assert t[ATR_PERIOD..ATR_PERIOD] == [];
    for i := ATR_PERIOD + 1 to n
      invariant atr == Smooth(alpha, seed, t[ATR_PERIOD..i - 1])
      invariant saved == (if i < n - 1 || n < ATR_PERIOD + 3 then ATR_PERIOD else n - 3)
      invariant ATR_PERIOD <= saved <= n - 1 && prevAtr == Smooth(alpha, seed, t[ATR_PERIOD..saved])
    {
      var tr := RangeAt(s, n, i);
      if i == n - 2 {
        prevAtr, saved := atr, i - 1;
      }
      SmoothStep(alpha, seed, t, ATR_PERIOD, i - 1);
      atr := Blended(alpha, tr, atr);
    }
    PrefixAtr(t, saved);
    PrefixAtr(t, n - 1);
    assert t[..n - 1] == t;
    expanding := atr > prevAtr;
  }

  lemma PrefixAtr(t: seq<real>, k: nat)
    requires ATR_PERIOD <= k <= |t|
    ensures Atr(t[..k]) == Smooth(WilderAlpha(ATR_PERIOD), Mean(t[..ATR_PERIOD]), t[ATR_PERIOD..k])
  {
    assert t[..k][..ATR_PERIOD] == t[..ATR_PERIOD] && t[..k][ATR_PERIOD..] == t[ATR_PERIOD..k];
  }

  // The ATR lies in the hull of its true ranges, and true ranges are never below the spread.
  lemma AtrHull(ranges: seq<real>, lo: real, hi: real)
    requires |ranges| >= ATR_PERIOD && Within(ranges, lo, hi)
    ensures lo <= Atr(ranges) <= hi
  {
    SeededSmoothHull(WilderAlpha(ATR_PERIOD), ATR_PERIOD, ranges, lo, hi);
  }

  // ---- RSI

  function Gains(w: seq<real>): (g: seq<real>)
    ensures |g| == if w == [] then 0 else |w| - 1
    ensures forall i :: 0 <= i < |g| ==> g[i] >= 0.0
  {
    seq(if w == [] then 0 else |w| - 1, i requires 0 <= i < |w| - 1 =>
      if w[i + 1] - w[i] > 0.0 then w[i + 1] - w[i] else 0.0)
  }

  function Losses(w: seq<real>): (l: seq<real>)
    ensures |l| == if w == [] then 0 else |w| - 1
    ensures forall i :: 0 <= i < |l| ==> l[i] >= 0.0
  {
    seq(if w == [] then 0 else |w| - 1, i requires 0 <= i < |w| - 1 =>
      if w[i + 1] - w[i] < 0.0 then w[i] - w[i + 1] else 0.0)
  }

  function Smoothed(period: nat, xs: seq<real>): (r: real)
    requires 0 < period <= |xs| && forall i :: 0 <= i < |xs| ==> xs[i] >= 0.0
    ensures r >= 0.0
  {
    SmoothedSign(WilderAlpha(period), period, xs);
    SeededSmooth(WilderAlpha(period), period, xs)
  }

  lemma SmoothedIs(period: nat, xs: seq<real>)
    requires 0 < period <= |xs| && forall i :: 0 <= i < |xs| ==> xs[i] >= 0.0
    ensures Smoothed(period, xs) == Smooth(WilderAlpha(period), Mean(xs[..period]), xs[period..])
  {
  }

  lemma SplitMove(w: seq<real>, i: nat)
    requires i + 1 < |w|
    ensures var diff := w[i + 1] - w[i];
            Gains(w)[i] == (if diff > 0.0 then diff else 0.0) && Losses(w)[i] == (if diff < 0.0 then -diff else 0.0)
  {
  }

  function RsiOf(avgGain: real, avgLoss: real): (rsi: real)
    requires avgGain >= 0.0
    ensures 0.0 <= rsi <= 100.0
  {
    if avgLoss < 0.0000000001 then 100.0
    else
      RsiBounds(avgGain, avgLoss);
      100.0 - 100.0 / (1.0 + avgGain / avgLoss)
  }

  // The RSI is the share of gains in all movement, in percent.
  lemma RsiIsShare(avgGain: real, avgLoss: real)
    requires avgGain >= 0.0 && avgLoss >= 0.0000000001
    ensures RsiOf(avgGain, avgLoss) * (avgGain + avgLoss) == 100.0 * avgGain
  {
    var rs := avgGain / avgLoss;
    assert rs * avgLoss == avgGain;
    var share := 100.0 / (1.0 + rs);
    Quotient(avgLoss, rs);
    assert share * (1.0 + rs) == 100.0;
    RsiAlgebra(avgGain, avgLoss, rs, share);
  }

  lemma RsiAlgebra(gain: real, loss: real, rs: real, share: real)
    requires rs * loss == gain && share * (1.0 + rs) == 100.0
    ensures (100.0 - share) * (gain + loss) == 100.0 * gain
  {
    assert gain + loss == (1.0 + rs) * loss;
    assert share * ((1.0 + rs) * loss) == 100.0 * loss;
  }

  // Every price move is a gain or a loss, never both.
  lemma MovesSplit(w: seq<real>, i: nat)
    requires i + 1 < |w|
    ensures Gains(w)[i] - Losses(w)[i] == w[i + 1] - w[i] && (Gains(w)[i] == 0.0 || Losses(w)[i] == 0.0)
  {
  }

  method ChangeAt(s: Store, n: nat, i: nat) returns (diff: real)
    requires s.Valid() && 0 < i < n <= s.Filled()
    ensures var w := Lasts(s.Window(n));
            diff == w[i] - w[i - 1]
  {
    hide *;
    var cur := LastAt(s, n, i);
    var prev := LastAt(s, n, i - 1);
    diff := cur - prev;
  }

  // The seed loop: plain averages of the first `period` changes.
  method SeedMoves(s: Store, n: nat, period: nat) returns (avgGain: real, avgLoss: real)
    requires s.Valid() && 0 < period < n <= s.Filled()
    ensures var w := Lasts(s.Window(n));
            avgGain == Mean(Gains(w)[..period]) && avgLoss == Mean(Losses(w)[..period])
  {
    hide *;
    EmptySums();
    avgGain, avgLoss := 0.0, 0.0;
    ghost var w := Lasts(s.Window(n));
    ghost var g, l := Gains(w), Losses(w);
    for i := 1 to period + 1
      invariant avgGain == Sum(g[..i - 1]) && avgLoss == Sum(l[..i - 1])
    {
      var diff := ChangeAt(s, n, i);
      SumStep(g, i - 1);
      SumStep(l, i - 1);
      SplitMove(w, i - 1);
      if diff > 0.0 { avgGain := avgGain + diff; } else { avgLoss := avgLoss + -diff; }
    }
    avgGain, avgLoss := Ratio(avgGain, period as real), Ratio(avgLoss, period as real);
    MeanIs(g[..period]);
    MeanIs(l[..period]);
  }

  method ComputeRsi(s: Store, period: nat) returns (rsi: real)
    requires s.Valid() && period > 0
    ensures var n := s.Filled();
            var w := Lasts(s.Window(n));
            rsi == if n < period + 1 then 50.0 else RsiOf(Smoothed(period, Gains(w)), Smoothed(period, Losses(w)))
    ensures 0.0 <= rsi <= 100.0
  {
    hide *;
    var n := s.Filled();
    if n < period + 1 {
      return 50.0;
    }
    var avgGain, avgLoss := SeedMoves(s, n, period);
    var alpha := WilderAlpha(period);
    ghost var w := Lasts(s.Window(n));
    ghost var g, l := Gains(w), Losses(w);
    ghost var gainSeed, lossSeed := avgGain, avgLoss;
    NothingToSmooth(alpha, gainSeed);
    NothingToSmooth(alpha, lossSeed);
    assert g[period..period] == [] && l[period..period] == [];
    for i := period + 1 to n
      invariant avgGain == Smooth(alpha, gainSeed, g[period..i - 1])
      invariant avgLoss == Smooth(alpha, lossSeed, l[period..i - 1])
    {
      var diff := ChangeAt(s, n, i);
      var gain := if diff > 0.0 then diff else 0.0;
      var loss := if diff < 0.0 then -diff else 0.0;
      SmoothStep(alpha, gainSeed, g, period, i - 1);
      SmoothStep(alpha, lossSeed, l, period, i - 1);
      SplitMove(w, i - 1);
      avgGain := Blended(alpha, gain, avgGain);
      avgLoss := Blended(alpha, loss, avgLoss);
    }
    assert g[period..n - 1] == g[period..] && l[period..n - 1] == l[period..];
    SmoothedIs(period, g);
    SmoothedIs(period, l);
    rsi := RsiOf(avgGain, avgLoss);
  }

  lemma SmoothedSign(alpha: real, period: nat, xs: seq<real>)
    requires 0 < period <= |xs| && 0.0 <= alpha <= 1.0 && forall i :: 0 <= i < |xs| ==> xs[i] >= 0.0
    ensures SeededSmooth(alpha, period, xs) >= 0.0
  {
    var hi := Sum(xs);
    UnderSum(xs);
    SeededSmoothHull(alpha, period, xs, 0.0, hi);
  }

  lemma {:induction false} UnderSum(xs: seq<real>)
    requires forall i :: 0 <= i < |xs| ==> xs[i] >= 0.0
    ensures Within(xs, 0.0, Sum(xs)) && Sum(xs) >= 0.0
    decreases |xs|
  {
    if xs != [] {
      UnderSum(xs[..|xs| - 1]);
      assert forall i :: 0 <= i < |xs| - 1 ==> xs[i] == xs[..|xs| - 1][i];
    }
  }

  lemma RsiBounds(avgGain: real, avgLoss: real)
    requires avgGain >= 0.0 && avgLoss > 0.0
    ensures 0.0 <= 100.0 - 100.0 / (1.0 + avgGain / avgLoss) <= 100.0
  {
    var rs := avgGain / avgLoss;
    assert avgLoss * rs == avgGain;
    Quotient(avgLoss, rs);
    var share := 100.0 / (1.0 + rs);
    assert share * (1.0 + rs) == 100.0;
    Quotient(1.0 + rs, share);
    Quotient(1.0 + rs, 100.0 - share);
  }

  // ---- trend strength

  function Steps(w: seq<real>): (d: seq<real>)
    ensures |d| == if w == [] then 0 else |w| - 1
  {
    seq(if w == [] then 0 else |w| - 1, i requires 0 <= i < |w| - 1 => w[i + 1] - w[i])
  }

  function Magnitudes(d: seq<real>): (m: seq<real>)
    ensures |m| == |d|
  {
    seq(|d|, i requires 0 <= i < |d| => Abs(d[i]))
  }

  function StrengthOf(net: real, path: real): (strength: real)
    requires 0.0 <= net <= path
    ensures 0.0 <= strength <= 100.0
  {
    if path > 0.000000000001 then
      QuotientHull(100.0 * net, path, 0.0, 100.0);
      Ratio(100.0 * net, path)
    else 0.0
  }

  lemma StrengthIsShare(net: real, path: real)
    requires 0.0 <= net <= path
    ensures path > 0.000000000001 ==> StrengthOf(net, path) * path == 100.0 * net
    ensures path <= 0.000000000001 ==> StrengthOf(net, path) == 0.0
  {
    if path > 0.000000000001 {
      RatioTimes(100.0 * net, path);
    }
  }

  // The net change is the difference of the end prices and never exceeds the path length.
  method ComputeTrendStrength(s: Store, period: nat) returns (strength: real)
    requires s.Valid()
    ensures var n := Min(s.Filled(), period);
            var w := Lasts(s.Window(n));
            if n < 3 then strength == 0.0
            else
              var net, path := Abs(w[n - 1] - w[0]), Sum(Magnitudes(Steps(w)));
              net <= path && strength == StrengthOf(net, path)
    ensures 0.0 <= strength <= 100.0
  {
    hide Store.Valid, Sum, StrengthOf;
    EmptySums();
    var n := Min(s.Filled(), period);
    if n < 3 {
      return 0.0;
    }
    ghost var w := Lasts(s.Window(n));
    ghost var m := Magnitudes(Steps(w));
    var sumAbs, sumNet := 0.0, 0.0;
    for i := 1 to n
      invariant sumAbs == Sum(m[..i - 1]) && sumNet == w[i - 1] - w[0]
      invariant Abs(sumNet) <= sumAbs
    {
      var d := ChangeAt(s, n, i);
      SumStep(m, i - 1);
      sumAbs, sumNet := sumAbs + Abs(d), sumNet + d;
    }
    assert m[..n - 1] == m;
    strength := StrengthOf(Abs(sumNet), sumAbs);
  }
}
