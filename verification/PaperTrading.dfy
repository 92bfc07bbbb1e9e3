/** PaperEngine: simulated fills, the running account summary and the outcomes sent to the learner. */
module PaperTrading {
  import opened Accounting
  import opened Numbers
  import opened Sums
  import opened Bits
  import opened SpscQueue
  import OnlineLearner
  import Remainders

  const PAPER_LOG_SZ: nat := 1024
  const CAPITAL: real := 10000.0
  const COMMISSION: real := 3.50

  datatype Direction = Flat | Long | Short

  datatype Signal = Signal(signalNs: int, direction: Direction, riskBlocked: bool, suggestedSl: real, suggestedTp: real,
                           activeRules: seq<Word>, conviction: real)

  datatype Fill = Fill(fillNs: int, direction: Direction, entryPrice: real, slPrice: real, tpPrice: real,
                       conviction: real, rulesActive: seq<Word>, slippageBps: real, commission: real)

  datatype Position = Position(isOpen: bool, direction: Direction, entryPrice: real, slPrice: real, tpPrice: real,
                               openNs: int, lotSize: real, openRules: seq<Word>, openConviction: real)

  datatype Summary = Summary(totalTrades: nat, winners: nat, losers: nat, totalPnl: real, maxDrawdown: real,
                             peakEquity: real, currentEquity: real, avgLatencyNs: real, lastTradeNs: int)

  // ---------------------------------------------------------------- the summary

  /** The summary says, in one pass, what the profits and holding times of all closes amount to.
      The peak it measures drawdown from starts at 0, not at the starting capital. */
  ghost predicate Describes(s: Summary, pnls: seq<real>, latencies: seq<real>) {
    && s.totalTrades == |pnls| == |latencies|
    && s.winners == Wins(pnls) && s.winners + s.losers == s.totalTrades
    && s.totalPnl == Sum(pnls) && s.currentEquity == CAPITAL + s.totalPnl
    && s.peakEquity == PeakAfter(0.0, CAPITAL, pnls, |pnls|)
    && IsMaxDrawdown(s.maxDrawdown, 0.0, CAPITAL, pnls)
    && s.avgLatencyNs == MeanOrZero(latencies)
  }

  function MeanOrZero(a: seq<real>): real {
    if a == [] then 0.0 else Mean(a)
  }

  lemma MeanTimesCount(a: seq<real>)
    ensures Product(MeanOrZero(a), |a| as real) == Sum(a)
  {
    if a != [] {
      MeanIs(a);
      hide Sum, Ratio, Mean;
    }
  }

  lemma RunningMean(latencies: seq<real>, x: real)
    ensures MeanOrZero(latencies + [x])
            == Ratio(Product(MeanOrZero(latencies), |latencies| as real) + x, (|latencies| + 1) as real)
  {
    hide Product, Ratio;
    var all := latencies + [x];
    assert all[..|latencies|] == latencies;
    assert Sum(all) == Sum(latencies) + x;
    MeanTimesCount(latencies);
    MeanIs(all);
  }

  /** Books one close. */
  method Record(s: Summary, pnl: real, latency: real, now: int, ghost pnls: seq<real>, ghost latencies: seq<real>)
    returns (r: Summary)
    requires Describes(s, pnls, latencies)
    ensures Describes(r, pnls + [pnl], latencies + [latency])
    ensures r.totalTrades == s.totalTrades + 1 && r.lastTradeNs == now
  {
    hide Ratio, Product, PeakAfter, IsMaxDrawdown, MeanOrZero;
    r := s.(totalPnl := s.totalPnl + pnl, currentEquity := s.currentEquity + pnl, totalTrades := s.totalTrades + 1);
    if pnl > 0.0 {
      r := r.(winners := r.winners + 1);
    } else {
      r := r.(losers := r.losers + 1);
    }
    if r.currentEquity > r.peakEquity {
      r := r.(peakEquity := r.currentEquity);
    }
    var dd := r.peakEquity - r.currentEquity;
    if dd > r.maxDrawdown {
      r := r.(maxDrawdown := dd);
    }
    r := r.(avgLatencyNs := Ratio(Product(r.avgLatencyNs, (r.totalTrades - 1) as real) + latency,
                                  r.totalTrades as real),
            lastTradeNs := now);
    assert (pnls + [pnl])[..|pnls|] == pnls && pnls[..|pnls|] == pnls;
    OneMoreClose(0.0, CAPITAL, pnls, pnl, s.maxDrawdown);
    RunningMean(latencies, latency);
  }

  // Starting the peak at 0 hides drawdown from the starting capital: the two readings agree after a
  // close exactly when some close so far has brought the equity to the starting capital.
  lemma PeakForgetsCapital(pnls: seq<real>, j: nat)
    requires 1 <= j <= |pnls|
    ensures DrawdownAfter(0.0, CAPITAL, pnls, j) == DrawdownAfter(CAPITAL, CAPITAL, pnls, j)
            <==> exists k :: 1 <= k <= j && EquityAfter(CAPITAL, pnls, k) >= CAPITAL
  {
    PeakIsMaximum(0.0, CAPITAL, pnls, j);
    PeakIsMaximum(CAPITAL, CAPITAL, pnls, j);
    if PeakAfter(0.0, CAPITAL, pnls, j) == PeakAfter(CAPITAL, CAPITAL, pnls, j) {
      var k :| 1 <= k <= j && EquityAfter(CAPITAL, pnls, k) == PeakAfter(0.0, CAPITAL, pnls, j);
    }
  }

  // For instance after a single close at a loss of 100: the summary reports no drawdown.
  lemma FirstLossIsForgotten(pnls: seq<real>)
    requires pnls == [-100.0]
    ensures DrawdownAfter(0.0, CAPITAL, pnls, 1) == 0.0 && DrawdownAfter(CAPITAL, CAPITAL, pnls, 1) == 100.0
    ensures IsMaxDrawdown(0.0, 0.0, CAPITAL, pnls)
  {
    assert pnls[..1] == pnls && pnls[..0] == [];
    assert Sum(pnls) == Sum(pnls[..0]) + pnls[0];
    assert EquityAfter(CAPITAL, pnls, 1) == 9900.0;
    PeakOfOne(0.0, pnls);
    PeakOfOne(CAPITAL, pnls);
  }

  lemma PeakOfOne(initial: real, pnls: seq<real>)
    requires |pnls| >= 1
    ensures PeakAfter(initial, CAPITAL, pnls, 1) == Max(initial, EquityAfter(CAPITAL, pnls, 1))
  {
  }

  // ---------------------------------------------------------------- the engine

  /** Profit per unit of a close at the given price, after commission; the lot size plays no part. */
  function Pnl(p: Position, exitPrice: real): real {
    (if p.direction.Long? then exitPrice - p.entryPrice else p.entryPrice - exitPrice) - COMMISSION
  }

  function Mark(p: Position, bid: real, ask: real): real {
    if p.direction.Long? then bid else ask
  }

  predicate MustClose(p: Position, bid: real, ask: real) {
    var mark := Mark(p, bid, ask);
    p.isOpen && (if p.direction.Long? then mark <= p.slPrice || mark >= p.tpPrice
                 else if p.direction.Short? then mark >= p.slPrice || mark <= p.tpPrice else false)
  }

  predicate Actionable(sig: Signal) {
    sig.direction != Flat && !sig.riskBlocked
  }

  /** The fill an actionable signal gets: half a basis point worse than the quote. */
  function FillFor(sig: Signal, bid: real, ask: real): Fill {
    var quote := if sig.direction.Long? then ask else bid;
    var entry := if sig.direction.Long? then quote + quote * 0.00005 else quote - quote * 0.00005;
    Fill(sig.signalNs, sig.direction, entry,
         if sig.direction.Long? then entry - sig.suggestedSl else entry + sig.suggestedSl,
         if sig.direction.Long? then entry + sig.suggestedTp else entry - sig.suggestedTp,
         sig.conviction, sig.activeRules, 0.5, COMMISSION)
  }

  /** The position a fill opens. */
  ghost predicate OpenedBy(p: Position, f: Fill) {
    && p.isOpen && p.direction == f.direction && p.entryPrice == f.entryPrice && p.slPrice == f.slPrice
    && p.tpPrice == f.tpPrice && p.openNs == f.fillNs && p.openRules == f.rulesActive
    && p.openConviction == f.conviction
  }

  // A fill costs half a basis point over the quote it hits, and its levels lie at the suggested distances.
  lemma FillsAreWorse(sig: Signal, bid: real, ask: real)
    requires Actionable(sig)
    ensures var f := FillFor(sig, bid, ask);
            && f.direction == sig.direction && f.fillNs == sig.signalNs && f.conviction == sig.conviction
            && f.rulesActive == sig.activeRules
            && f.entryPrice == (if sig.direction == Long then 1.00005 * ask else 0.99995 * bid)
            && (if sig.direction == Long then f.entryPrice - ask == ask * f.slippageBps / 10000.0
                else bid - f.entryPrice == bid * f.slippageBps / 10000.0)
            && (sig.direction == Long ==>
                  f.entryPrice - f.slPrice == sig.suggestedSl && f.tpPrice - f.entryPrice == sig.suggestedTp)
            && (sig.direction == Short ==>
                  f.slPrice - f.entryPrice == sig.suggestedSl && f.entryPrice - f.tpPrice == sig.suggestedTp)
  {
  }

  // What a round trip earns per unit: a long buys above the ask and sells at the bid, a short the other way round.
  lemma RoundTripEarns(p: Position, sig: Signal, bid: real, ask: real, bid': real, ask': real)
    requires Actionable(sig) && OpenedBy(p, FillFor(sig, bid, ask))
    ensures Pnl(p, Mark(p, bid', ask'))
            == (if sig.direction == Long then bid' - 1.00005 * ask else 0.99995 * bid - ask') - 3.5
  {
  }

  // A position is closed exactly when its mark is not strictly between its levels.
  lemma ClosesUnlessBetween(p: Position, bid: real, ask: real)
    requires p.isOpen && p.direction != Flat
    ensures MustClose(p, bid, ask)
            <==> !(if p.direction == Long then p.slPrice < bid < p.tpPrice else p.tpPrice < ask < p.slPrice)
  {
  }

  // The learner is told of the rules and the conviction of the opening, and of a win exactly for a profit.
  lemma OutcomeTells(p: Position, pnl: real, now: int)
    ensures var o := OutcomeOf(p, pnl, now);
            && (o.y == 1.0 || o.y == -1.0) && (o.y == 1.0 <==> pnl > 0.0)
            && o.activeRules == p.openRules && o.conviction == p.openConviction && o.closeNs == now
  {
  }

  function OutcomeOf(p: Position, pnl: real, now: int): OnlineLearner.TradeOutcome {
    OnlineLearner.TradeOutcome(if pnl > 0.0 then 1.0 else -1.0, p.openRules, p.openConviction, now)
  }

  /** What one push leaves in a queue of the given capacity. */
  function Pushed<T>(contents: seq<T>, capacity: nat, item: T): seq<T> {
    if |contents| < capacity - 1 then contents + [item] else contents
  }

  class Engine {
    var pos: Position
    var summary: Summary
    const fills: array<Fill>
    var fillCount: nat

    ghost var log: seq<Fill>          // every fill ever made
    ghost var pnls: seq<real>         // profit of every close
    ghost var latencies: seq<real>    // how long each closed position was held

    ghost predicate Valid()
      reads this, fills
    {
      && fills.Length == PAPER_LOG_SZ
      && Describes(summary, pnls, latencies)
      && fillCount == |log| == summary.totalTrades + (if pos.isOpen then 1 else 0)
      && (forall k :: 0 <= k < fillCount && fillCount - PAPER_LOG_SZ <= k ==> fills[k % PAPER_LOG_SZ] == log[k])
      && (pos.isOpen ==> pos.direction != Flat && OpenedBy(pos, log[fillCount - 1]))
    }

    constructor ()
      ensures Valid() && log == [] && pnls == [] && !pos.isOpen && fresh(fills)
    {
      pos := Position(false, Flat, 0.0, 0.0, 0.0, 0, 0.0, [], 0.0);
      summary := Summary(0, 0, 0, 0.0, 0.0, 0.0, CAPITAL, 0.0, 0);
      fills := new Fill[PAPER_LOG_SZ](_ => Fill(0, Flat, 0.0, 0.0, 0.0, 0.0, [], 0.0, 0.0));
      fillCount, log, pnls, latencies := 0, [], [], [];
    }

    // Every close is booked once; its outcome reaches the learner's queue unless that is full or absent.
    method ClosePosition(outcomes: Queue?<OnlineLearner.TradeOutcome>, exitPrice: real, now: int)
      requires Valid() && (outcomes != null ==> outcomes.Valid())
      modifies this, if outcomes == null then {} else {outcomes, outcomes.buffer}
      ensures Valid() && !pos.isOpen && log == old(log) && (outcomes != null ==> outcomes.Valid())
      ensures !old(pos.isOpen) ==> pnls == old(pnls) && summary == old(summary) && pos == old(pos)
      ensures old(pos.isOpen) ==> pnls == old(pnls) + [Pnl(old(pos), exitPrice)] && pos == old(pos).(isOpen := false)
      ensures old(pos.isOpen) ==> latencies == old(latencies) + [(now - old(pos.openNs)) as real]
      ensures outcomes != null && !old(pos.isOpen) ==> outcomes.contents == old(outcomes.contents)
      ensures outcomes != null && old(pos.isOpen) ==>
                outcomes.contents == Pushed(old(outcomes.contents), outcomes.buffer.Length,
                                            OutcomeOf(old(pos), Pnl(old(pos), exitPrice), now))
    {
      hide Describes, OpenedBy;
      if !pos.isOpen {
        return;
      }
      var pnl := if pos.direction.Long? then exitPrice - pos.entryPrice else pos.entryPrice - exitPrice;
      pnl := pnl - 3.50;
      var latency := (now - pos.openNs) as real;
      summary := Record(summary, pnl, latency, now, pnls, latencies);
      pnls, latencies := pnls + [pnl], latencies + [latency];
      if outcomes != null {
        var outcome := OnlineLearner.TradeOutcome(if pnl > 0.0 then 1.0 else -1.0,
                                                  pos.openRules, pos.openConviction, now);
        var _ := outcomes.TryPush(outcome);
      }
      pos := pos.(isOpen := false);
    }

    method OpenPosition(sig: Signal, lotSize: real, bid: real, ask: real)
      requires Valid() && !pos.isOpen && Actionable(sig)
      modifies this, fills
      ensures Valid() && log == old(log) + [FillFor(sig, bid, ask)]
      ensures OpenedBy(pos, FillFor(sig, bid, ask)) && pos.lotSize == lotSize
      ensures pnls == old(pnls) && latencies == old(latencies) && summary == old(summary)
    {
      hide Describes;
      var entry := if sig.direction.Long? then ask else bid;
      var slip := entry * 0.00005;
      entry := entry + if sig.direction.Long? then slip else -slip;
      pos := Position(true, sig.direction, entry,
                      if sig.direction.Long? then entry - sig.suggestedSl else entry + sig.suggestedSl,
                      if sig.direction.Long? then entry + sig.suggestedTp else entry - sig.suggestedTp,
                      sig.signalNs, lotSize, sig.activeRules, sig.conviction);
      var slot := fillCount % PAPER_LOG_SZ;
      forall k | 0 <= k < fillCount && fillCount + 1 - PAPER_LOG_SZ <= k ensures k % PAPER_LOG_SZ != slot {
        if k % PAPER_LOG_SZ == slot {
          Remainders.SameRemainder(k, fillCount, PAPER_LOG_SZ);
        }
      }
      fills[slot] := Fill(sig.signalNs, sig.direction, entry, pos.slPrice, pos.tpPrice,
                          sig.conviction, sig.activeRules, 0.5, 3.50);
      fillCount, log := fillCount + 1, log + [FillFor(sig, bid, ask)];
    }

    // A signal may close the open position and, in the same call, open the next one.
    method OnSignal(outcomes: Queue?<OnlineLearner.TradeOutcome>, sig: Signal, lotSize: real, bid: real, ask: real)
      requires Valid() && (outcomes != null ==> outcomes.Valid())
      modifies this, fills, if outcomes == null then {} else {outcomes, outcomes.buffer}
      ensures Valid() && (outcomes != null ==> outcomes.Valid())
      ensures sig.direction == Flat || sig.riskBlocked ==> log == old(log)
      ensures var closes := MustClose(old(pos), bid, ask);
              var opens := (!old(pos.isOpen) || closes) && Actionable(sig);
              && pnls == old(pnls) + (if closes then [Pnl(old(pos), Mark(old(pos), bid, ask))] else [])
              && latencies == old(latencies) + (if closes then [(sig.signalNs - old(pos.openNs)) as real] else [])
              && log == old(log) + (if opens then [FillFor(sig, bid, ask)] else [])
              && (opens ==> OpenedBy(pos, FillFor(sig, bid, ask)) && pos.lotSize == lotSize)
              && (!opens ==> pos == if closes then old(pos).(isOpen := false) else old(pos))
              && (outcomes != null && !closes ==> outcomes.contents == old(outcomes.contents))
              && (outcomes != null && closes ==>
                    outcomes.contents == Pushed(old(outcomes.contents), outcomes.buffer.Length,
                      OutcomeOf(old(pos), Pnl(old(pos), Mark(old(pos), bid, ask)), sig.signalNs)))
    {
      hide Describes, OpenedBy, FillFor;
      var now := sig.signalNs;
      if pos.isOpen {
        var mark := if pos.direction.Long? then bid else ask;
        if (pos.direction.Long? && mark <= pos.slPrice) || (pos.direction.Short? && mark >= pos.slPrice)
           || (pos.direction.Long? && mark >= pos.tpPrice) || (pos.direction.Short? && mark <= pos.tpPrice) {
          ClosePosition(outcomes, mark, now);
        }
      }
      if !pos.isOpen && sig.direction != Flat && !sig.riskBlocked {
        OpenPosition(sig, lotSize, bid, ask);
      }
    }
  }
}
