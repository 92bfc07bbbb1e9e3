/** Equity curves: what single-pass equity, peak and drawdown bookkeeping means. */
module Accounting {
  import opened Numbers
  import opened Sums

  /** How many profits are positive. */
  function Wins(pnls: seq<real>): (n: nat)
    ensures n <= |pnls|
  {
    if pnls == [] then 0
    else Wins(pnls[..|pnls| - 1]) + if pnls[|pnls| - 1] > 0.0 then 1 else 0
  }

  /** Sum of the positive profits. */
  function GrossProfit(pnls: seq<real>): real {
    if pnls == [] then 0.0
    else GrossProfit(pnls[..|pnls| - 1]) + if pnls[|pnls| - 1] > 0.0 then pnls[|pnls| - 1] else 0.0
  }

  /** Equity after the first j trades. */
  function EquityAfter(start: real, pnls: seq<real>, j: nat): real
    requires j <= |pnls|
  {
    start + Sum(pnls[..j])
  }

  /** peak is the largest of its initial value and the equities after trades 1..j. */
  ghost predicate IsPeak(peak: real, initial: real, start: real, pnls: seq<real>, j: nat)
    requires j <= |pnls|
  {
    && peak >= initial && (forall k :: 1 <= k <= j ==> EquityAfter(start, pnls, k) <= peak)
    && (peak == initial || exists k :: 1 <= k <= j && EquityAfter(start, pnls, k) == peak)
  }

  /** The running peak, as the closing code maintains it. */
  function PeakAfter(initial: real, start: real, pnls: seq<real>, j: nat): real
    requires j <= |pnls|
  {
    if j == 0 then initial else Max(PeakAfter(initial, start, pnls, j - 1), EquityAfter(start, pnls, j))
  }

  /** Distance below the peak right after trade j. */
  function DrawdownAfter(initial: real, start: real, pnls: seq<real>, j: nat): real
    requires j <= |pnls|
  {
    PeakAfter(initial, start, pnls, j) - EquityAfter(start, pnls, j)
  }

  ghost predicate IsMaxDrawdown(dd: real, initial: real, start: real, pnls: seq<real>) {
    && dd >= 0.0 && (forall j :: 1 <= j <= |pnls| ==> DrawdownAfter(initial, start, pnls, j) <= dd)
    && (dd == 0.0 || exists j :: 1 <= j <= |pnls| && DrawdownAfter(initial, start, pnls, j) == dd)
  }

  lemma {:induction false} PeakIsMaximum(initial: real, start: real, pnls: seq<real>, j: nat)
    requires j <= |pnls|
    ensures IsPeak(PeakAfter(initial, start, pnls, j), initial, start, pnls, j)
    decreases j
  {
    if j > 0 {
      PeakIsMaximum(initial, start, pnls, j - 1);
    }
  }

  lemma {:induction false} PrefixPeak(initial: real, start: real, pnls: seq<real>, pnl: real, j: nat)
    requires j <= |pnls|
    ensures PeakAfter(initial, start, pnls + [pnl], j) == PeakAfter(initial, start, pnls, j)
    ensures EquityAfter(start, pnls + [pnl], j) == EquityAfter(start, pnls, j)
    decreases j
  {
    assert (pnls + [pnl])[..j] == pnls[..j];
    if j > 0 {
      PrefixPeak(initial, start, pnls, pnl, j - 1);
    }
  }

  lemma LatestEquity(initial: real, start: real, pnls: seq<real>, pnl: real)
    ensures var n, all := |pnls|, pnls + [pnl];
            var equity := EquityAfter(start, pnls, n) + pnl;
            && Sum(all) == Sum(pnls) + pnl && EquityAfter(start, all, n + 1) == equity
            && PeakAfter(initial, start, all, n + 1) == Max(PeakAfter(initial, start, pnls, n), equity)
  {
    var n, all := |pnls|, pnls + [pnl];
    assert all[..n] == pnls && all[..n + 1] == all && pnls[..n] == pnls;
    PrefixPeak(initial, start, pnls, pnl, n);
  }

  // One more close: equity adds the profit, the peak is raised to it, the drawdown to the distance.
  lemma OneMoreClose(initial: real, start: real, pnls: seq<real>, pnl: real, dd: real)
    requires IsMaxDrawdown(dd, initial, start, pnls)
    ensures var n, all := |pnls|, pnls + [pnl];
            var equity := EquityAfter(start, pnls, n) + pnl;
            var peak := Max(PeakAfter(initial, start, pnls, n), equity);
            && Sum(all) == Sum(pnls) + pnl
            && EquityAfter(start, all, n + 1) == equity && PeakAfter(initial, start, all, n + 1) == peak
            && IsMaxDrawdown(Max(dd, peak - equity), initial, start, all)
  {
    hide Sum, EquityAfter, PeakAfter;
    LatestEquity(initial, start, pnls, pnl);
    var n, all := |pnls|, pnls + [pnl];
    forall j | 0 <= j <= n
      ensures DrawdownAfter(initial, start, all, j) == DrawdownAfter(initial, start, pnls, j)
    {
      PrefixPeak(initial, start, pnls, pnl, j);
    }
    var latest := DrawdownAfter(initial, start, all, n + 1);
    hide DrawdownAfter;
    if dd != 0.0 && dd >= latest {
      var j :| 1 <= j <= n && DrawdownAfter(initial, start, pnls, j) == dd;
      assert DrawdownAfter(initial, start, all, j) == dd;
    }
  }
}
