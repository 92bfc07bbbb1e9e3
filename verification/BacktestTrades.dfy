/** When the backtester enters and leaves, at which prices, and what it counts, in terms of the ticks. */
module BacktestTrades {
  import opened Numbers
  import opened Options
  import opened Sums
  import opened Accounting
  import opened Backtest

  // ---------------------------------------------------------------- in terms of the ticks

  /** Profit per unit at tick k of a position entered at tick e: longs buy at the ask and sell at the bid. */
  function GainAt(isLong: bool, ticks: seq<Input>, e: nat, k: nat): real
    requires e < |ticks| && k < |ticks|
  {
    if isLong then ticks[k].bid - ticks[e].ask else ticks[e].bid - ticks[k].ask
  }

  /** The best of zero and the gains at the ticks after e and before n. */
  function BestGain(isLong: bool, ticks: seq<Input>, e: nat, n: nat): real
    requires e < |ticks| && n <= |ticks|
  {
    if n <= e + 1 then 0.0 else Max(BestGain(isLong, ticks, e, n - 1), GainAt(isLong, ticks, e, n - 1))
  }

  function TargetAt(ticks: seq<Input>, e: nat): real
    requires e < |ticks|
  {
    TargetDistance(StopDistance(ticks[e].atr14), ticks[e].realizedVol20)
  }

  function StopAt(ticks: seq<Input>, e: nat): real
    requires e < |ticks|
  {
    WidenedStop(StopDistance(ticks[e].atr14), TargetAt(ticks, e))
  }

  /** Why a position entered at tick e must be left at tick k, if it must. */
  function ExitDue(isLong: bool, ticks: seq<Input>, e: nat, k: nat): Option<ExitKind>
    requires e < k < |ticks|
  {
    var g, best, age := GainAt(isLong, ticks, e, k), BestGain(isLong, ticks, e, k + 1), k - e;
    if g >= TargetAt(ticks, e) then Some(TakeProfit)
    else if best > 0.3 * TargetAt(ticks, e) && g <= 0.6 * best then Some(Trail)
    else if g <= -StopAt(ticks, e) then Some(StopLoss)
    else if (age >= 400 && g >= 0.05) || age >= 1200 then Some(Timed)
    else None
  }

  /** Average spread after n ticks: the first spread, then 5% of each new one. */
  function SpreadAverage(ticks: seq<Input>, n: nat): real
    requires 0 < n <= |ticks|
  {
    var spread := ticks[n - 1].ask - ticks[n - 1].bid;
    if n == 1 then spread else 0.05 * spread + 0.95 * SpreadAverage(ticks, n - 1)
  }

  // Each tick leaves 95% of the distance between the average and the new spread.
  lemma SpreadAverageMoves(ticks: seq<Input>, n: nat)
    requires 1 < n <= |ticks|
    ensures var spread := ticks[n - 1].ask - ticks[n - 1].bid;
            SpreadAverage(ticks, n) - spread == 0.95 * (SpreadAverage(ticks, n - 1) - spread)
  {
  }

  // ---------------------------------------------------------------- prices and counts

  ghost predicate PositionIsPriced(p: Position, ticks: seq<Input>, n: nat)
    requires n <= |ticks|
  {
    p.isOpen ==>
      && p.entryTick < n && p.lotSize == 2.0
      && p.entryPrice == (if p.isLong then ticks[p.entryTick].ask else ticks[p.entryTick].bid)
      && Gain(p, p.sl) == -StopAt(ticks, p.entryTick) && Gain(p, p.tp) == TargetAt(ticks, p.entryTick)
  }

  ghost predicate TradeIsPriced(t: Trade, ticks: seq<Input>) {
    && t.entryTick < t.exitTick < |ticks|
    && t.entryPrice == (if t.isLong then ticks[t.entryTick].ask else ticks[t.entryTick].bid)
    && t.exitMark == (if t.isLong then ticks[t.exitTick].bid else ticks[t.exitTick].ask)
    && t.pnl == 2.0 * GainAt(t.isLong, ticks, t.entryTick, t.exitTick)
  }

  function Exits(trades: seq<Trade>, kind: ExitKind): nat {
    if trades == [] then 0
    else Exits(trades[..|trades| - 1], kind) + if trades[|trades| - 1].kind == kind then 1 else 0
  }

  ghost predicate Tallied(r: Result, trades: seq<Trade>) {
    && r.tpExits == Exits(trades, TakeProfit) && r.trailExits == Exits(trades, Trail)
    && r.slExits == Exits(trades, StopLoss) && r.timeExits == Exits(trades, Timed)
    && r.winners == Wins(Pnls(trades)) && r.grossProfit == GrossProfit(Pnls(trades))
  }

  ghost predicate Detailed(s: State, ticks: seq<Input>, n: nat)
    requires n <= |ticks|
  {
    && PositionIsPriced(s.pos, ticks, n) && Tallied(s.result, s.trades)
    && (forall k :: 0 <= k < |s.trades| ==> TradeIsPriced(s.trades[k], ticks))
    && s.spreadInit == (n > 0) && (n > 0 ==> s.spreadEma == SpreadAverage(ticks, n))
  }

  lemma TallyOneMore(r: Result, trades: seq<Trade>, t: Trade)
    requires Tallied(r, trades)
    ensures Tallied(Counted(WithDrawdown(Booked(r, t.pnl)), t.kind), trades + [t])
  {
    hide Max;
    assert (trades + [t])[..|trades|] == trades;
    var pnls := Pnls(trades);
    PnlsOneMore(trades, t);
    assert (pnls + [t.pnl])[..|pnls|] == pnls;
  }

  lemma ClosingKeepsDetails(s: State, ticks: seq<Input>, n: nat)
    requires n < |ticks| && Inv(s, ticks, n) && PositivePrices(ticks) && s.pos.isOpen
    requires PositionIsPriced(s.pos, ticks, n) && Tallied(s.result, s.trades)
    requires forall k :: 0 <= k < |s.trades| ==> TradeIsPriced(s.trades[k], ticks)
    ensures var mark := Mark(s.pos, ticks[n]); var c := Closed(s.(pos := Tracked(s.pos, mark)), n, mark);
            && Tallied(c.result, c.trades) && !c.pos.isOpen
            && (forall k :: 0 <= k < |c.trades| ==> TradeIsPriced(c.trades[k], ticks))
  {
    hide Balanced, HistoryIsSound, Latest, IsBest, Cooled, Persisted, Tallied, Booked, WithDrawdown, Counted, StopAt,
         TargetAt, HitStop, HitTarget, HitTrail, Remember;
    var mark := Mark(s.pos, ticks[n]);
    TrackingKeepsLevels(s.pos, mark);
    var c := Closed(s.(pos := Tracked(s.pos, mark)), n, mark);
    TallyOneMore(s.result, s.trades, c.trades[|s.trades|]);
  }

  lemma ManagingKeepsDetails(s: State, ticks: seq<Input>, n: nat)
    requires n < |ticks| && Inv(s, ticks, n) && PositivePrices(ticks)
    requires PositionIsPriced(s.pos, ticks, n) && Tallied(s.result, s.trades)
    requires forall k :: 0 <= k < |s.trades| ==> TradeIsPriced(s.trades[k], ticks)
    ensures var m := Managed(s, n, ticks[n]);
            && PositionIsPriced(m.pos, ticks, n + 1) && Tallied(m.result, m.trades)
            && (forall k :: 0 <= k < |m.trades| ==> TradeIsPriced(m.trades[k], ticks))
            && m.spreadEma == s.spreadEma && m.spreadInit == s.spreadInit
  {
    hide Inv, Tallied, TradeIsPriced, Tracked, MustClose, PositivePrices, StopAt, TargetAt;
    if s.pos.isOpen {
      ClosingKeepsDetails(s, ticks, n);
      TrackingKeepsLevels(s.pos, Mark(s.pos, ticks[n]));
    }
  }

  lemma EntryIsPriced(isLong: bool, ticks: seq<Input>, n: nat)
    requires n < |ticks|
    ensures PositionIsPriced(Opened(isLong, n, ticks[n]), ticks, n + 1)
  {
    var t := ticks[n];
    Distances(t.atr14, t.realizedVol20);
    var stop := StopDistance(t.atr14);
    LotSizeIsAlwaysTheCap(WidenedStop(stop, TargetDistance(stop, t.realizedVol20)));
    hide LotSize, StopDistance, TargetDistance, WidenedStop;
  }

  lemma TickKeepsDetails(s: State, ticks: seq<Input>, n: nat)
    requires n < |ticks| && Inv(s, ticks, n) && Detailed(s, ticks, n) && PositivePrices(ticks)
    ensures Detailed(Tick(s, n, ticks[n]), ticks, n + 1)
  {
    hide Balanced, HistoryIsSound, PositionIsSound, Latest, Managed, Tallied, TradeIsPriced, Opened, MayEnter,
         PositionIsPriced;
    var c := Confirmed(Averaged(s, ticks[n]), ticks[n]);
    StillInv(s, c, ticks, n);
    ManagingKeepsDetails(c.(longConfirm := s.longConfirm, shortConfirm := s.shortConfirm), ticks, n);
    ManagingIgnoresCounters(c, s.longConfirm, s.shortConfirm, n, ticks[n]);
    EntryIsPriced(LongSignal(Managed(c, n, ticks[n]), ticks[n]), ticks, n);
  }

  lemma StillInv(s: State, c: State, ticks: seq<Input>, n: nat)
    requires n < |ticks| && Inv(s, ticks, n) && c == Confirmed(Averaged(s, ticks[n]), ticks[n])
    ensures Inv(c.(longConfirm := s.longConfirm, shortConfirm := s.shortConfirm), ticks, n)
  {
    hide Balanced, HistoryIsSound, PositionIsSound, Latest;
  }

  lemma ManagingIgnoresCounters(c: State, long: nat, short: nat, i: nat, t: Input)
    ensures var m, o := Managed(c, i, t), Managed(c.(longConfirm := long, shortConfirm := short), i, t);
            m == o.(longConfirm := c.longConfirm, shortConfirm := c.shortConfirm)
  {
    hide Tracked, MustClose, Booked, WithDrawdown, Counted, Kind, Remember, Profit;
  }

  lemma StartIsDetailed(s: State, ticks: seq<Input>)
    requires s == START
    ensures Detailed(s, ticks, 0)
  {
    hide StopAt, TargetAt;
    assert Pnls(s.trades) == [];
  }

  lemma {:induction false} RunKeepsDetails(ticks: seq<Input>, n: nat)
    requires n <= |ticks| && PositivePrices(ticks)
    ensures Inv(Run(ticks, n), ticks, n) && Detailed(Run(ticks, n), ticks, n)
    decreases n
  {
    hide Tick, Inv, Detailed, PositivePrices;
    RunKeepsInv(ticks, n);
    if n == 0 {
      StartIsDetailed(Run(ticks, 0), ticks);
    } else {
      RunKeepsDetails(ticks, n - 1);
      TickKeepsDetails(Run(ticks, n - 1), ticks, n - 1);
    }
  }

  // In every run on positive prices: what is open was bought at the ask or sold at the bid of its entry tick, with
  // stop and target at the distances of that tick; what is closed was closed at the other side of its exit tick,
  // with a profit of two units; and the counters count the trades by exit and by sign.
  lemma PricesOfRun(ticks: seq<Input>, n: nat)
    requires n <= |ticks| && PositivePrices(ticks)
    ensures var s := Run(ticks, n);
            && PositionIsPriced(s.pos, ticks, n) && Tallied(s.result, s.trades)
            && (forall k :: 0 <= k < |s.trades| ==> TradeIsPriced(s.trades[k], ticks))
  {
    hide Run, Inv, Tallied, TradeIsPriced, PositionIsPriced;
    RunKeepsDetails(ticks, n);
  }

  lemma BookOneMore(r: Result, pnls: seq<real>, pnl: real)
    requires r.totalPnl == Sum(pnls) && r.winners == Wins(pnls) && r.grossProfit == GrossProfit(pnls)
    ensures var b := Booked(r, pnl); var all := pnls + [pnl];
            && b.totalPnl == Sum(all) && b.winners == Wins(all) && b.grossProfit == GrossProfit(all)
            && b.tpExits == r.tpExits && b.trailExits == r.trailExits && b.slExits == r.slExits
            && b.timeExits == r.timeExits
  {
    assert (pnls + [pnl])[..|pnls|] == pnls;
  }

  lemma ProfitIsTwice(p: Position, ticks: seq<Input>, n: nat)
    requires n < |ticks| && p.isOpen && PositionIsPriced(p, ticks, n + 1)
    ensures Profit(p, Mark(p, ticks[n])) == 2.0 * GainAt(p.isLong, ticks, p.entryTick, n)
  {
    hide StopAt, TargetAt;
  }

  // The report adds the forced close of what is still open, at the last tick's prices.
  lemma ReportIsPriced(ticks: seq<Input>)
    requires PositivePrices(ticks)
    ensures var s, r := Run(ticks, |ticks|), Report(ticks); var e := s.pos.entryTick;
            && (s.pos.isOpen ==> e < |ticks|)
            && var last := if s.pos.isOpen then [2.0 * GainAt(s.pos.isLong, ticks, e, |ticks| - 1)] else [];
            && r.totalPnl == Sum(Pnls(s.trades) + last) && r.winners == Wins(Pnls(s.trades) + last)
            && r.grossProfit == GrossProfit(Pnls(s.trades) + last)
            && r.tpExits == Exits(s.trades, TakeProfit) && r.trailExits == Exits(s.trades, Trail)
            && r.slExits == Exits(s.trades, StopLoss) && r.timeExits == Exits(s.trades, Timed)
  {
    hide Tick, Inv, TradeIsPriced, GainAt, Sum, Wins, GrossProfit, Exits, Booked, Profit, Mark, PositionIsPriced, Pnls;
    RunKeepsDetails(ticks, |ticks|);
    var s := Run(ticks, |ticks|);
    TotalOfRun(s, ticks, |ticks|);
    EntryPrecedes(s.pos, ticks, |ticks|);
    var pnls := Pnls(s.trades);
    assert pnls + [] == pnls;
    if s.pos.isOpen {
      ProfitIsTwice(s.pos, ticks, |ticks| - 1);
      BookOneMore(s.result, pnls, Profit(s.pos, Mark(s.pos, ticks[|ticks| - 1])));
    }
  }

  lemma TotalOfRun(s: State, ticks: seq<Input>, n: nat)
    requires n <= |ticks| && Inv(s, ticks, n)
    ensures s.result.totalPnl == Sum(Pnls(s.trades))
  {
    hide HistoryIsSound, PositionIsSound, Latest, IsMaxDrawdown, PeakAfter;
  }

  lemma EntryPrecedes(p: Position, ticks: seq<Input>, n: nat)
    requires n <= |ticks| && PositionIsPriced(p, ticks, n)
    ensures p.isOpen ==> p.entryTick < n
  {
    hide StopAt, TargetAt;
  }

  // ---------------------------------------------------------------- when a position is left

  lemma {:induction false} BestIsRunning(p: Position, ticks: seq<Input>, n: nat)
    requires p.entryTick < n <= |ticks| && IsBest(p, ticks, n) && 0.0 <= Gain(p, p.bestPrice)
    requires p.entryPrice == if p.isLong then ticks[p.entryTick].ask else ticks[p.entryTick].bid
    ensures BestGain(p.isLong, ticks, p.entryTick, n) == Gain(p, p.bestPrice)
  {
    BestIsLargest(p.isLong, ticks, p.entryTick, n);
    assert forall k :: p.entryTick < k < n ==> GainAt(p.isLong, ticks, p.entryTick, k) == Gain(p, Mark(p, ticks[k]));
  }

  lemma {:induction false} BestIsLargest(isLong: bool, ticks: seq<Input>, e: nat, n: nat)
    requires e < n <= |ticks|
    ensures var b := BestGain(isLong, ticks, e, n);
            && b >= 0.0 && (forall k :: e < k < n ==> GainAt(isLong, ticks, e, k) <= b)
            && (b == 0.0 || exists k :: e < k < n && GainAt(isLong, ticks, e, k) == b)
    decreases n
  {
    if n > e + 1 {
      BestIsLargest(isLong, ticks, e, n - 1);
    }
  }

  // A tracked position closes exactly when an exit is due, and for that reason.
  lemma CloseIffDue(p: Position, ticks: seq<Input>, n: nat)
    requires n < |ticks| && p.isOpen && p.entryTick < n && PositionIsPriced(p, ticks, n) && PositivePrices(ticks)
    requires Sound(p) && TrailIsExact(p) && IsBest(p, ticks, n)
    ensures var mark := Mark(p, ticks[n]); var q := Tracked(p, mark);
            var due := ExitDue(p.isLong, ticks, p.entryTick, n);
            && (MustClose(q, n, mark) <==> due.Some?) && (due.Some? ==> due.value == Kind(q, mark))
  {
    var mark := Mark(p, ticks[n]);
    BestIsRunning(p, ticks, n);
    TrackingIsExact(p, mark);
    hide Tracked, IsBest, BestGain, StopAt, TargetAt, PositivePrices;
    assert BestGain(p.isLong, ticks, p.entryTick, n + 1)
        == Max(BestGain(p.isLong, ticks, p.entryTick, n), GainAt(p.isLong, ticks, p.entryTick, n)) by {
      BestGrows(p.isLong, ticks, p.entryTick, n);
    }
    ExitsByGain(Tracked(p, mark), mark);
  }

  lemma BestGrows(isLong: bool, ticks: seq<Input>, e: nat, n: nat)
    requires e < n < |ticks|
    ensures BestGain(isLong, ticks, e, n + 1) == Max(BestGain(isLong, ticks, e, n), GainAt(isLong, ticks, e, n))
  {
  }

  // The exit conditions in gains per unit instead of prices.
  lemma ExitsByGain(q: Position, mark: real)
    requires Sound(q) && TrailIsExact(q)
    ensures HitTarget(q, mark) <==> Gain(q, mark) >= Gain(q, q.tp)
    ensures HitStop(q, mark) <==> Gain(q, mark) <= Gain(q, q.sl)
    ensures HitTrail(q, mark) <==>
              Gain(q, q.bestPrice) > 0.3 * Gain(q, q.tp) && Gain(q, mark) <= 0.6 * Gain(q, q.bestPrice)
  {
  }

  // In every run on positive prices: the position open before tick n is left at tick n if and only if an exit is
  // due, as one trade with that reason; otherwise it stays the same position and no trade is added.
  lemma LeavesIff(ticks: seq<Input>, n: nat)
    requires n < |ticks| && PositivePrices(ticks) && Run(ticks, n).pos.isOpen
    ensures var s, t := Run(ticks, n), Run(ticks, n + 1); var p := s.pos;
            && p.entryTick < n
            && var due := ExitDue(p.isLong, ticks, p.entryTick, n);
            if due.None? then
              t.trades == s.trades && t.pos == p.(bestPrice := t.pos.bestPrice, trailingStop := t.pos.trailingStop)
            else
              && !t.pos.isOpen && |t.trades| == |s.trades| + 1 && t.trades[..|s.trades|] == s.trades
              && var last := t.trades[|s.trades|];
              last.kind == due.value && last.exitTick == n && last.entryTick == p.entryTick && last.isLong == p.isLong
  {
    hide Run, Balanced, HistoryIsSound, Latest, IsBest, Cooled, Persisted, Tallied, TradeIsPriced, Sound, TrailIsExact,
         ExitDue, Tracked, MustClose, PositionIsPriced, Kind, Opened, RequiredCooldown, LongSignal, ShortSignal,
         Booked, WithDrawdown, Counted, Profit;
    RunKeepsDetails(ticks, n);
    var s := Run(ticks, n);
    CloseIffDue(s.pos, ticks, n);
    OneMoreTick(ticks, n);
    TrackingKeepsLevels(s.pos, Mark(s.pos, ticks[n]));
    CooldownIsPositive(Managed(Confirmed(Averaged(s, ticks[n]), ticks[n]), n, ticks[n]).recentPnl);
  }

  lemma CooldownIsPositive(pnls: seq<real>)
    ensures RequiredCooldown(pnls) >= 30
  {
  }

  lemma OneMoreTick(ticks: seq<Input>, n: nat)
    requires n < |ticks|
    ensures Run(ticks, n + 1) == Tick(Run(ticks, n), n, ticks[n])
  {
    hide Tick;
  }

  // ---------------------------------------------------------------- when a position is taken

  /** The tick after the one at which the confirmation counters were last cleared by an entry. */
  function Since(s: State): nat {
    if s.pos.isOpen then s.pos.entryTick + 1
    else if s.trades == [] then 0 else s.trades[|s.trades| - 1].entryTick + 1
  }

  /** How many ticks in a row up to tick n - 1 carry conviction of the given sign. */
  function Streak(ticks: seq<Input>, n: nat, long: bool): (length: nat)
    requires n <= |ticks|
    ensures length <= n
  {
    if n > 0 && (if long then ticks[n - 1].conviction >= 0.55 else ticks[n - 1].conviction <= -0.55)
    then 1 + Streak(ticks, n - 1, long) else 0
  }

  ghost predicate Counting(s: State, ticks: seq<Input>, n: nat)
    requires n <= |ticks|
  {
    && Since(s) <= n && s.longConfirm == Min(n - Since(s), Streak(ticks, n, true))
    && s.shortConfirm == Min(n - Since(s), Streak(ticks, n, false))
  }

  lemma ConfirmingCounts(s: State, ticks: seq<Input>, n: nat)
    requires n < |ticks| && Counting(s, ticks, n)
    ensures Counting(Confirmed(Averaged(s, ticks[n]), ticks[n]), ticks, n + 1)
  {
  }

  lemma TickCounts(s: State, ticks: seq<Input>, n: nat)
    requires n < |ticks| && Counting(s, ticks, n)
    ensures Counting(Tick(s, n, ticks[n]), ticks, n + 1)
  {
    hide Tracked, MustClose, Kind, MayEnter, Booked, WithDrawdown, Counted, Profit, Streak, Averaged, Confirmed,
         Remember, LongSignal, StopDistance, TargetDistance, WidenedStop, LotSize;
    ConfirmingCounts(s, ticks, n);
    var c := Confirmed(Averaged(s, ticks[n]), ticks[n]);
    TrackingKeepsLevels(c.pos, Mark(c.pos, ticks[n]));
  }

  lemma {:induction false} RunCounts(ticks: seq<Input>, n: nat)
    requires n <= |ticks|
    ensures Counting(Run(ticks, n), ticks, n)
    decreases n
  {
    hide Tick;
    if n > 0 {
      RunCounts(ticks, n - 1);
      TickCounts(Run(ticks, n - 1), ticks, n - 1);
    }
  }

  lemma {:induction false} StreakIsPersistence(ticks: seq<Input>, n: nat, length: nat, long: bool)
    requires length <= n <= |ticks|
    ensures Streak(ticks, n, long) >= length <==> Persisted(ticks, n, length, long)
    decreases n
  {
    if length > 0 {
      StreakIsPersistence(ticks, n - 1, length - 1, long);
      if Persisted(ticks, n, length, long) {
        assert Persisted(ticks, n - 1, length - 1, long);
      }
    }
  }

  /** What must hold for an entry at tick n after the given trades. */
  ghost predicate EntryDue(trades: seq<Trade>, ticks: seq<Input>, n: nat)
    requires n < |ticks|
  {
    var average, spread := SpreadAverage(ticks, n + 1), ticks[n].ask - ticks[n].bid;
    && n >= 100 && Cooled(trades, n) && (average < 0.01 || spread <= 2.0 * average)
    && (Persisted(ticks, n + 1, 8, true) || Persisted(ticks, n + 1, 8, false))
  }

  // In every run on positive prices: flat before tick n, the backtester enters at tick n if and only if it is
  // warmed up and cooled down, the spread is normal and eight ticks of one sign have just been seen; and on that side.
  lemma EntersIff(ticks: seq<Input>, n: nat)
    requires n < |ticks| && PositivePrices(ticks) && !Run(ticks, n).pos.isOpen
    ensures var s, t := Run(ticks, n), Run(ticks, n + 1);
            && (t.pos.isOpen <==> EntryDue(s.trades, ticks, n))
            && (t.pos.isOpen ==> t.pos.entryTick == n && (t.pos.isLong <==> Persisted(ticks, n + 1, 8, true)))
            && t.trades == s.trades
  {
    hide Run, Tick, Inv, Detailed, Counting;
    RunKeepsDetails(ticks, n);
    RunCounts(ticks, n);
    OneMoreTick(ticks, n);
    TickEntersIff(Run(ticks, n), ticks, n);
  }

  lemma TickEntersIff(s: State, ticks: seq<Input>, n: nat)
    requires n < |ticks| && !s.pos.isOpen && Inv(s, ticks, n) && Detailed(s, ticks, n) && Counting(s, ticks, n)
    ensures var t := Tick(s, n, ticks[n]);
            && (t.pos.isOpen <==> EntryDue(s.trades, ticks, n))
            && (t.pos.isOpen ==> t.pos.entryTick == n && (t.pos.isLong <==> Persisted(ticks, n + 1, 8, true)))
            && t.trades == s.trades
  {
    hide Balanced, HistoryIsSound, PositionIsSound, Latest, Cooled, Persisted, Tallied, TradeIsPriced, RequiredCooldown,
         PositionIsPriced, StopDistance, TargetDistance, WidenedStop, LotSize, Streak, SpreadAverage;
    var c := Confirmed(Averaged(s, ticks[n]), ticks[n]);
    ConfirmingCounts(s, ticks, n);
    AverageIs(s, ticks, n);
    if n >= 100 {
      CooledIff(s, ticks, n);
      StreakIsPersistence(ticks, n + 1, 8, true);
      StreakIsPersistence(ticks, n + 1, 8, false);
      if Cooled(s.trades, n) {
        LongAgo(s, ticks, n);
      }
      OnlyOneSign(ticks, n);
    }
  }

  lemma AverageIs(s: State, ticks: seq<Input>, n: nat)
    requires n < |ticks| && Detailed(s, ticks, n)
    ensures Averaged(s, ticks[n]).spreadEma == SpreadAverage(ticks, n + 1)
  {
    hide Tallied, TradeIsPriced, PositionIsPriced;
  }

  lemma CooledIff(s: State, ticks: seq<Input>, n: nat)
    requires n < |ticks| && !s.pos.isOpen && Inv(s, ticks, n) && n >= 100
    ensures n - s.lastTradeTick >= RequiredCooldown(s.recentPnl) <==> Cooled(s.trades, n)
  {
    hide Balanced, HistoryIsSound, PositionIsSound, Latest, LossStreak;
    CooldownOfLatest(Pnls(s.trades));
    assert s.trades == [] ==> LossStreak(Pnls(s.trades)) == 0;
  }

  lemma LongAgo(s: State, ticks: seq<Input>, n: nat)
    requires n < |ticks| && !s.pos.isOpen && Inv(s, ticks, n) && n >= 100 && Cooled(s.trades, n)
    ensures n + 1 - Since(s) >= 8
  {
    hide Balanced, PositionIsSound, Latest;
    if s.trades != [] {
      assert TradeIsSound(s.trades[|s.trades| - 1]);
    }
  }

  lemma OnlyOneSign(ticks: seq<Input>, n: nat)
    requires 7 <= n < |ticks|
    ensures Persisted(ticks, n + 1, 8, true) ==> ticks[n].conviction >= 0.55
    ensures Persisted(ticks, n + 1, 8, false) ==> ticks[n].conviction <= -0.55
  {
  }
}
