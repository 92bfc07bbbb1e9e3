/** CostModel: fees, slippage and spread of a round trip, and the price move that pays for them. */
module TransactionCosts {
  import opened Numbers
  import opened Sums

  /** The fee schedule; all rates in basis points. */
  datatype Fees = Fees(makerBps: real, takerBps: real, bnbDiscount: real, useBnb: bool,
                       baseSlippageBps: real, volumePenaltyBps: real)

  datatype Quote = Quote(bid: real, ask: real, mid: real)

  function EffectiveMaker(f: Fees): real {
    if f.useBnb then f.makerBps * f.bnbDiscount else f.makerBps
  }

  function EffectiveTaker(f: Fees): real {
    if f.useBnb then f.takerBps * f.bnbDiscount else f.takerBps
  }

  function SlippageBps(f: Fees, qty: real): real {
    f.baseSlippageBps + Product(f.volumePenaltyBps, Abs(qty))
  }

  function RoundTripBps(f: Fees, spread: real, qty: real): real {
    EffectiveTaker(f) + EffectiveMaker(f) + 2.0 * SlippageBps(f, qty) + spread
  }

  function RoundTripCost(f: Fees, spread: real, entry: real, qty: real): real {
    Product(Product(entry, Abs(qty)), RoundTripBps(f, spread, qty)) / 10000.0
  }

  /** The hurdle: the move needed to break even, or a billion when nothing is traded. */
  function MinProfitPrice(f: Fees, spread: real, entry: real, qty: real): real {
    if Abs(qty) < 0.000000000000001 || entry < 0.00000001 then 1000000000.0
    else Product(entry, RoundTripBps(f, spread, qty)) / 10000.0
  }

  function Gain(entry: real, exit: real, isLong: bool): real {
    if isLong then exit - entry else entry - exit
  }

  function NetPnl(f: Fees, spread: real, entry: real, exit: real, qty: real, isLong: bool): real {
    Product(Gain(entry, exit, isLong), qty) - RoundTripCost(f, spread, entry, qty)
  }

  function LiveBps(q: Quote): real
    requires q.mid > 0.00000001
  {
    Ratio(q.ask - q.bid, q.mid) * 10000.0
  }

  function NextSpread(spread: real, q: Quote): real {
    if q.mid > 0.00000001 then
      if spread < 0.000000000001 then LiveBps(q) else 0.02 * LiveBps(q) + 0.98 * spread
    else spread
  }

  function SpreadAfter(quotes: seq<Quote>): real {
    if quotes == [] then 0.0 else NextSpread(SpreadAfter(quotes[..|quotes| - 1]), quotes[|quotes| - 1])
  }

  // ---------------------------------------------------------------- the hurdle

  lemma ProductsRegroup(entry: real, qty: real, bps: real, gain: real)
    ensures Product(gain, qty) - Product(Product(entry, qty), bps) / 10000.0
            == qty * (gain - Product(entry, bps) / 10000.0)
  {
    assert Product(Product(entry, qty), bps) == qty * Product(entry, bps);
  }

  lemma SignOfProduct(a: real, b: real)
    requires a > 0.0
    ensures a * b >= 0.0 <==> b >= 0.0
  {
  }

  // A trade nets a profit or breaks even exactly when the price has moved by the hurdle.
  lemma HurdleIsExact(f: Fees, spread: real, entry: real, exit: real, qty: real, isLong: bool)
    requires qty >= 0.000000000000001 && entry >= 0.00000001
    ensures NetPnl(f, spread, entry, exit, qty, isLong) >= 0.0
            <==> Gain(entry, exit, isLong) >= MinProfitPrice(f, spread, entry, qty)
  {
    hide Product, RoundTripBps, Gain;
    var gain, hurdle := Gain(entry, exit, isLong), MinProfitPrice(f, spread, entry, qty);
    ProductsRegroup(entry, qty, RoundTripBps(f, spread, qty), gain);
    SignOfProduct(qty, gain - hurdle);
  }

  // The net profit is what the price has moved beyond the hurdle, times the quantity.
  lemma NetPnlIsBeyondHurdle(f: Fees, spread: real, entry: real, exit: real, qty: real, isLong: bool)
    requires qty >= 0.000000000000001 && entry >= 0.00000001
    ensures NetPnl(f, spread, entry, exit, qty, isLong)
            == qty * (Gain(entry, exit, isLong) - MinProfitPrice(f, spread, entry, qty))
  {
    hide Product, RoundTripBps, Gain;
    ProductsRegroup(entry, qty, RoundTripBps(f, spread, qty), Gain(entry, exit, isLong));
  }

  // Where nothing could be earned the hurdle is a billion, which no target of less clears.
  lemma HurdleOfNothing(f: Fees, spread: real, entry: real, qty: real, target: real)
    requires Abs(qty) < 0.000000000000001 || entry < 0.00000001
    ensures target >= MinProfitPrice(f, spread, entry, qty) <==> target >= 1_000_000_000.0
  {
  }

  // Opening pays the taker fee and closing the maker fee; both pay slippage and half the spread.
  lemma RoundTripIsTwoLegs(f: Fees, spread: real, qty: real)
    ensures var slippage := f.baseSlippageBps + Product(f.volumePenaltyBps, Abs(qty));
            var discount := if f.useBnb then f.bnbDiscount else 1.0;
            RoundTripBps(f, spread, qty)
            == (discount * f.takerBps + slippage + spread / 2.0) + (discount * f.makerBps + slippage + spread / 2.0)
  {
    hide Product;
  }

  // The cost in dollars is that many hundredths of a percent of the value traded.
  lemma CostIsShareOfNotional(f: Fees, spread: real, entry: real, qty: real)
    requires qty >= 0.0
    ensures 10000.0 * RoundTripCost(f, spread, entry, qty) == Product(Product(entry, qty), RoundTripBps(f, spread, qty))
  {
    hide Product, RoundTripBps;
  }

  lemma ProductGrows(entry: real, a: real, b: real)
    requires entry >= 0.0 && a <= 1.5 * b
    ensures Product(entry, a) <= 1.5 * Product(entry, b)
  {
    assert entry * a <= entry * (1.5 * b);
  }

  // A target placed at one and a half times the hurdle still pays while costs grow by at most half.
  lemma TargetPays(f: Fees, atOpen: real, atClose: real, entry: real, exit: real, qty: real, isLong: bool)
    requires qty >= 0.000000000000001 && entry >= 0.00000001
    requires Gain(entry, exit, isLong) >= 1.5 * MinProfitPrice(f, atOpen, entry, qty)
    requires RoundTripBps(f, atClose, qty) <= 1.5 * RoundTripBps(f, atOpen, qty)
    ensures NetPnl(f, atClose, entry, exit, qty, isLong) >= 0.0
  {
    hide Product, RoundTripBps, Gain, NetPnl;
    HurdleIsExact(f, atClose, entry, exit, qty, isLong);
    ProductGrows(entry, RoundTripBps(f, atClose, qty), RoundTripBps(f, atOpen, qty));
  }

  // ---------------------------------------------------------------- the spread average

  ghost predicate SpreadsWithin(quotes: seq<Quote>, lo: real, hi: real) {
    forall k :: 0 <= k < |quotes| && quotes[k].mid > 0.00000001 ==> lo <= LiveBps(quotes[k]) <= hi
  }

  lemma NextSpreadInHull(spread: real, q: Quote, lo: real, hi: real)
    requires q.mid > 0.00000001 && lo <= LiveBps(q) <= hi && (spread == 0.0 || lo <= spread <= hi)
    ensures lo <= NextSpread(spread, q) <= hi
  {
    hide LiveBps;
  }

  // A usable quote sets the average when there is none, and otherwise leaves 98% of the distance to its spread.
  lemma SpreadMoves(spread: real, q: Quote)
    ensures q.mid > 0.00000001 ==> LiveBps(q) * q.mid == 10000.0 * (q.ask - q.bid)
    ensures q.mid > 0.00000001 && spread < 0.000000000001 ==> NextSpread(spread, q) == LiveBps(q)
    ensures q.mid > 0.00000001 && spread >= 0.000000000001 ==>
              NextSpread(spread, q) - LiveBps(q) == 0.98 * (spread - LiveBps(q))
    ensures q.mid <= 0.00000001 ==> NextSpread(spread, q) == spread
  {
    if q.mid > 0.00000001 {
      RatioTimes(q.ask - q.bid, q.mid);
    }
  }

  // Once one usable quote has been seen, the average lies between the observed spreads.
  lemma {:induction false} SpreadStaysInHull(quotes: seq<Quote>, lo: real, hi: real)
    requires SpreadsWithin(quotes, lo, hi)
    ensures if forall k :: 0 <= k < |quotes| ==> quotes[k].mid <= 0.00000001 then SpreadAfter(quotes) == 0.0
            else lo <= SpreadAfter(quotes) <= hi
    decreases |quotes|
  {
    if quotes != [] {
      hide LiveBps;
      SpreadStaysInHull(quotes[..|quotes| - 1], lo, hi);
    }
  }

  /** The part of the round trip that does not depend on the market. */
  function FixedBps(f: Fees): real {
    EffectiveTaker(f) + EffectiveMaker(f) + 2.0 * f.baseSlippageBps
  }

  // When the spread stays in a band this narrow, costs cannot grow by more than half.
  lemma CostsGrowByHalfAtMost(f: Fees, atOpen: real, atClose: real, qty: real, lo: real, hi: real)
    requires f.volumePenaltyBps >= 0.0 && lo <= atOpen && atClose <= hi && hi <= 1.5 * lo + 0.5 * FixedBps(f)
    ensures RoundTripBps(f, atClose, qty) <= 1.5 * RoundTripBps(f, atOpen, qty)
  {
    NonNegativeProduct(f.volumePenaltyBps, Abs(qty));
    hide Product, EffectiveMaker, EffectiveTaker;
  }

  class CostModel {
    const fees: Fees
    var spreadCostBps: real
    ghost var quotes: seq<Quote>

    ghost predicate Valid()
      reads this
    {
      spreadCostBps == SpreadAfter(quotes)
    }

    constructor (schedule: Fees)
      ensures Valid() && fees == schedule && quotes == []
    {
      fees, spreadCostBps, quotes := schedule, 0.0, [];
    }

    method UpdateSpreadCost(bid: real, ask: real, mid: real)
      requires Valid()
      modifies this
      ensures Valid() && quotes == old(quotes) + [Quote(bid, ask, mid)]
      ensures spreadCostBps == NextSpread(old(spreadCostBps), Quote(bid, ask, mid))
    {
      if mid > 0.00000001 {
        var live := Ratio(ask - bid, mid) * 10000.0;
        spreadCostBps := if spreadCostBps < 0.000000000001 then live else 0.02 * live + 0.98 * spreadCostBps;
      }
      assert (quotes + [Quote(bid, ask, mid)])[..|quotes|] == quotes;
      quotes := quotes + [Quote(bid, ask, mid)];
    }
  }
}
