/** AccountState: equity, its peak, the circuit breaker and position sizing. */
module Account {
  import opened Numbers
  import opened Accounting
  import opened Sums

  /** Risk-based size, capped so that the position never costs more than the equity. */
  function PositionSize(equity: real, entry: real, slDist: real, riskPct: real): real {
    if entry < 0.00000001 || slDist < 0.00000001 || riskPct < 0.00000001 then 0.0
    else Max(MinReal(Ratio(Product(equity, riskPct), slDist), Ratio(equity, entry)), 0.0)
  }

  lemma RatioBound(qty: real, x: real, d: real)
    requires d > 0.0
    ensures (qty <= Ratio(x, d) ==> Product(qty, d) <= x) && (qty == Ratio(x, d) ==> Product(qty, d) == x)
    ensures x <= 0.0 ==> Ratio(x, d) <= 0.0
  {
    var q := Ratio(x, d);
    assert q * d == x;
    if qty <= q {
      assert (q - qty) * d >= 0.0;
    }
    if q > 0.0 {
      assert q * d > 0.0;
    }
  }

  lemma ProductSigns(x: real, y: real)
    ensures x <= 0.0 && y >= 0.0 ==> Product(x, y) <= 0.0
    ensures Product(0.0, y) == 0.0
  {
  }

  // Neither the equity nor the risk budget is exceeded, and one of the two is used up unless nothing is traded.
  lemma SizeIsBounded(equity: real, entry: real, slDist: real, riskPct: real)
    ensures var qty := PositionSize(equity, entry, slDist, riskPct);
            && qty >= 0.0 && (qty > 0.0 ==> equity > 0.0 && entry >= 0.00000001 && slDist >= 0.00000001)
            && Product(qty, entry) <= Max(equity, 0.0)
            && (riskPct >= 0.0 ==> Product(qty, slDist) <= Product(Max(equity, 0.0), riskPct))
            && (riskPct < 0.0 ==> qty == 0.0)
            && (qty > 0.0 ==> Product(qty, slDist) == Product(equity, riskPct) || Product(qty, entry) == equity)
  {
    hide Product, Ratio;
    var qty := PositionSize(equity, entry, slDist, riskPct);
    ProductSigns(equity, riskPct);
    ProductSigns(0.0, entry);
    ProductSigns(0.0, slDist);
    ProductSigns(0.0, riskPct);
    if riskPct >= 0.0 {
      NonNegativeProduct(Max(equity, 0.0), riskPct);
    }
    if !(entry < 0.00000001 || slDist < 0.00000001 || riskPct < 0.00000001) {
      RatioBound(qty, Product(equity, riskPct), slDist);
      RatioBound(qty, equity, entry);
    }
  }

  lemma RatioOrderIff(qty: real, x: real, d: real, y: real)
    requires d > 0.0 && qty == Ratio(x, d)
    ensures Product(qty, d) <= y <==> x <= y
  {
    assert qty * d == x;
  }

  lemma ProductOrderIff(equity: real, a: real, b: real)
    requires equity > 0.0
    ensures Product(equity, a) <= Product(equity, b) <==> a <= b
  {
    assert a > b ==> equity * (a - b) > 0.0;
    assert a <= b ==> equity * (b - a) >= 0.0;
  }

  lemma SpentEquity(qty: real, equity: real, entry: real, slDist: real, share: real)
    requires equity > 0.0 && entry > 0.0 && qty == Ratio(equity, entry)
    ensures Product(qty, slDist) <= Product(equity, share) <==> slDist <= share * entry
  {
    assert qty * entry == equity && qty > 0.0 by {
      assert qty * entry == equity;
      assert qty <= 0.0 ==> (-qty) * entry >= 0.0;
    }
    assert equity * share == qty * (share * entry);
    ProductOrderIff(qty, slDist, share * entry);
  }

  lemma MinOrder(qty: real, a: real, b: real, d: real, y: real)
    requires d > 0.0 && qty == MinReal(a, b)
    ensures Product(qty, d) <= y <==> Product(a, d) <= y || Product(b, d) <= y
  {
    assert a <= b ==> (b - a) * d >= 0.0;
    assert b <= a ==> (a - b) * d >= 0.0;
  }

  lemma PositiveRatio(x: real, d: real)
    requires x > 0.0 && d > 0.0
    ensures Ratio(x, d) > 0.0
  {
    var q := Ratio(x, d);
    assert q * d == x;
    assert q <= 0.0 ==> (-q) * d >= 0.0;
  }

  // The stop risks at most a given share of the equity if and only if nothing is traded, the risk asked for is
  // at most that share, or the stop is so close that even all the equity would not lose it.
  lemma StopKeepsShareIff(equity: real, entry: real, slDist: real, riskPct: real, share: real)
    requires share >= 0.00000001
    ensures Product(PositionSize(equity, entry, slDist, riskPct), slDist) <= Product(Max(equity, 0.0), share)
            <==> equity <= 0.0 || entry < 0.00000001 || slDist < 0.00000001 || riskPct <= share
                 || slDist <= share * entry
  {
    hide Product, Ratio;
    var qty := PositionSize(equity, entry, slDist, riskPct);
    ProductSigns(0.0, slDist);
    NonNegativeProduct(Max(equity, 0.0), share);
    if equity > 0.0 && !(entry < 0.00000001 || slDist < 0.00000001 || riskPct < 0.00000001) {
      var budget, all := Ratio(Product(equity, riskPct), slDist), Ratio(equity, entry);
      PositiveProduct(equity, riskPct);
      PositiveRatio(Product(equity, riskPct), slDist);
      PositiveRatio(equity, entry);
      MinOrder(qty, budget, all, slDist, Product(equity, share));
      RatioOrderIff(budget, Product(equity, riskPct), slDist, Product(equity, share));
      ProductOrderIff(equity, riskPct, share);
      SpentEquity(all, equity, entry, slDist, share);
    } else {
      SizeIsBounded(equity, entry, slDist, riskPct);
    }
  }

  lemma LossGrowsWithDistance(qty: real, entry: real, exit: real)
    requires qty >= 0.0 && exit >= 0.0
    ensures Product(qty, entry - exit) <= Product(qty, entry)
  {
    assert qty * exit >= 0.0;
    assert qty * (entry - exit) == qty * entry - qty * exit;
  }

  // A long can lose no more than the equity it was opened with, whatever non-negative price it ends at.
  lemma LongLossIsCovered(equity: real, entry: real, slDist: real, riskPct: real, exit: real)
    requires equity > 0.0 && exit >= 0.0
    ensures Product(PositionSize(equity, entry, slDist, riskPct), entry - exit) <= equity
  {
    hide Product, PositionSize;
    SizeIsBounded(equity, entry, slDist, riskPct);
    LossGrowsWithDistance(PositionSize(equity, entry, slDist, riskPct), entry, exit);
  }

  function DrawdownPct(peak: real, equity: real): real {
    if peak < 0.00000001 then 0.0 else Ratio(peak - equity, peak) * 100.0
  }

  // A drawdown is between nothing and everything exactly while the equity is not negative, or there is no peak.
  lemma DrawdownIsPercentage(peak: real, equity: real)
    requires peak >= equity
    ensures DrawdownPct(peak, equity) >= 0.0
    ensures DrawdownPct(peak, equity) <= 100.0 <==> equity >= 0.0 || peak < 0.00000001
    ensures if peak < 0.00000001 then DrawdownPct(peak, equity) == 0.0
            else DrawdownPct(peak, equity) * peak == 100.0 * (peak - equity)
  {
    if peak >= 0.00000001 {
      ShareOfPeak(peak, equity);
    }
  }

  lemma ShareOfPeak(peak: real, equity: real)
    requires peak >= equity && peak >= 0.00000001
    ensures var q := Ratio(peak - equity, peak);
            q >= 0.0 && q * peak == peak - equity && (q <= 1.0 <==> equity >= 0.0)
  {
    var q := Ratio(peak - equity, peak);
    assert q * peak == peak - equity;
    assert q < 0.0 ==> (-q) * peak > 0.0;
    assert (1.0 - q) * peak == equity;
    assert q <= 1.0 <==> equity >= 0.0 by {
      if q > 1.0 {
        assert (q - 1.0) * peak > 0.0;
      } else {
        assert (1.0 - q) * peak >= 0.0;
      }
    }
  }

  class AccountState {
    const startingEquity: real
    const breakerEquity: real
    var currentEquity: real
    var peakEquity: real
    var realizedPnl: real
    ghost var pnls: seq<real>   // every trade recorded

    // Equity is the starting equity plus the recorded profits; its peak is the highest it has been.
    ghost predicate Valid()
      reads this
    {
      && realizedPnl == Sum(pnls) && currentEquity == startingEquity + Sum(pnls)
      && peakEquity == PeakAfter(startingEquity, startingEquity, pnls, |pnls|)
    }

    constructor (start: real, breaker: real)
      ensures Valid() && startingEquity == start && breakerEquity == breaker && pnls == []
    {
      startingEquity, currentEquity, peakEquity, realizedPnl, breakerEquity := start, start, start, 0.0, breaker;
      pnls := [];
    }

    predicate IsTradingHalted()
      reads this
    {
      currentEquity <= breakerEquity
    }

    method RecordTrade(netPnl: real)
      requires Valid()
      modifies this
      ensures Valid() && pnls == old(pnls) + [netPnl] && currentEquity == old(currentEquity) + netPnl
    {
      LatestEquity(startingEquity, startingEquity, pnls, netPnl);
      assert pnls[..|pnls|] == pnls;
      currentEquity := currentEquity + netPnl;
      realizedPnl := realizedPnl + netPnl;
      if currentEquity > peakEquity {
        peakEquity := currentEquity;
      }
      pnls := pnls + [netPnl];
    }

    method ComputePositionSize(entry: real, slDist: real, riskPct: real) returns (qty: real)
      ensures qty == PositionSize(currentEquity, entry, slDist, riskPct)
    {
      if entry < 0.00000001 || slDist < 0.00000001 || riskPct < 0.00000001 {
        return 0.0;
      }
      var riskUsd := Product(currentEquity, riskPct);
      qty := Ratio(riskUsd, slDist);
      var maxQty := Ratio(currentEquity, entry);
      qty := MinReal(qty, maxQty);
      qty := Max(qty, 0.0);
    }
  }
}
