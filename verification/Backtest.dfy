/** The single-threaded backtester: signal persistence, position management, entries and accounting. */
module Backtest {
  import opened Numbers
  import opened Accounting
  import opened Sums

  const WARMUP: nat := 100
  const COOLDOWN: nat := 30
  const LOSS_COOLDOWN: nat := 300
  const SIGNAL_PERSIST: nat := 8
  const TIME_EXIT: nat := 400
  const HARD_TIME_EXIT: nat := 1200
  const TRAIL_ACTIVATION: real := 0.30
  const TRAIL_FACTOR: real := 0.40
  const MIN_SL: real := 3.0
  const MAX_SL: real := 15.0
  const MIN_TP: real := 1.0
  const SPREAD_MULT: real := 2.0
  const CONV_THRESHOLD: real := 0.55
  const MAX_CONSEC: nat := 3
  const MAX_RECENT: nat := 30
  const START_EQUITY: real := 10000.0

  /** A tick together with the indicator values the strategy reads at it. */
  datatype Input = Input(bid: real, ask: real, conviction: real, atr14: real, realizedVol20: real)

  datatype Position = Position(isOpen: bool, isLong: bool, entryPrice: real, sl: real, tp: real,
                               trailingStop: real, bestPrice: real, lotSize: real, entryTick: nat)

  datatype Result = Result(totalTrades: nat, winners: nat, losers: nat,
                           tpExits: nat, slExits: nat, trailExits: nat, timeExits: nat,
                           totalPnl: real, maxDrawdown: real, peakEquity: real, currentEquity: real,
                           grossProfit: real, grossLoss: real)

  datatype ExitKind = TakeProfit | Trail | StopLoss | Timed

  /** A completed trade, as the history remembers it. */
  datatype Trade = Trade(entryTick: nat, exitTick: nat, isLong: bool, entryPrice: real, exitMark: real, armed: bool,
                         kind: ExitKind, pnl: real)

  /** Everything the tick loop carries from tick to tick, with the trades completed so far. */
  datatype State = State(pos: Position, result: Result, recentPnl: seq<real>, lastTradeTick: nat,
                         longConfirm: nat, shortConfirm: nat, spreadEma: real, spreadInit: bool,
                         trades: seq<Trade>)

  const FLAT := Position(false, false, 0.0, 0.0, 0.0, 0.0, 0.0, 0.0, 0)
  const NO_TRADES := Result(0, 0, 0, 0, 0, 0, 0, 0.0, 0.0, START_EQUITY, START_EQUITY, 0.0, 0.0)
  const START := State(FLAT, NO_TRADES, [], 0, 0, 0, 0.0, false, [])

  // ---------------------------------------------------------------- one tick

  /** How far price x lies from the entry on the profitable side. */
  function Gain(p: Position, x: real): real {
    if p.isLong then x - p.entryPrice else p.entryPrice - x
  }

  function Profit(p: Position, mark: real): real {
    Gain(p, mark) * p.lotSize
  }

  /** The price at which the position would be closed now. */
  function Mark(p: Position, t: Input): real {
    if p.isLong then t.bid else t.ask
  }

  function HitStop(p: Position, mark: real): bool {
    if p.isLong then mark <= p.sl else mark >= p.sl
  }

  function HitTarget(p: Position, mark: real): bool {
    if p.isLong then mark >= p.tp else mark <= p.tp
  }

  function HitTrail(p: Position, mark: real): bool {
    p.trailingStop > 0.0 && (if p.isLong then mark <= p.trailingStop else mark >= p.trailingStop)
  }

  function BestOf(p: Position, mark: real): real {
    if p.isLong then (if mark > p.bestPrice then mark else p.bestPrice)
    else (if mark < p.bestPrice then mark else p.bestPrice)
  }

  /** The position after its best price and trailing stop have seen one more mark. */
  function Tracked(p: Position, mark: real): Position {
    var q := p.(bestPrice := BestOf(p, mark));
    if Gain(p, mark) > TRAIL_ACTIVATION * Abs(p.tp - p.entryPrice) then
      if p.isLong then
        var trail := q.bestPrice - TRAIL_FACTOR * (q.bestPrice - p.entryPrice);
        if trail > p.trailingStop then q.(trailingStop := trail) else q
      else
        var trail := q.bestPrice + TRAIL_FACTOR * (p.entryPrice - q.bestPrice);
        if p.trailingStop == 0.0 || trail < p.trailingStop then q.(trailingStop := trail) else q
    else q
  }

  function TimeIsUp(p: Position, i: nat, rawPnl: real): bool {
    var ticksOpen := i - p.entryTick;
    (ticksOpen >= TIME_EXIT && rawPnl >= 0.05) || ticksOpen >= HARD_TIME_EXIT
  }

  /** Why a tracked position closes at this mark, in the order the exit counters are tried. */
  function Kind(p: Position, mark: real): ExitKind {
    if HitTarget(p, mark) then TakeProfit else if HitTrail(p, mark) then Trail
    else if HitStop(p, mark) then StopLoss else Timed
  }

  function MustClose(p: Position, i: nat, mark: real): bool {
    HitStop(p, mark) || HitTarget(p, mark) || HitTrail(p, mark) || TimeIsUp(p, i, Gain(p, mark))
  }

  function Booked(r: Result, pnl: real): Result {
    r.(totalPnl := r.totalPnl + pnl, currentEquity := r.currentEquity + pnl, totalTrades := r.totalTrades + 1,
       winners := if pnl > 0.0 then r.winners + 1 else r.winners,
       grossProfit := if pnl > 0.0 then r.grossProfit + pnl else r.grossProfit,
       losers := if pnl > 0.0 then r.losers else r.losers + 1,
       grossLoss := if pnl > 0.0 then r.grossLoss else r.grossLoss + Abs(pnl))
  }

  function WithDrawdown(r: Result): Result {
    var peak := Max(r.peakEquity, r.currentEquity);
    r.(peakEquity := peak, maxDrawdown := Max(r.maxDrawdown, peak - r.currentEquity))
  }

  function Counted(r: Result, kind: ExitKind): Result {
    match kind
    case TakeProfit => r.(tpExits := r.tpExits + 1)
    case Trail => r.(trailExits := r.trailExits + 1)
    case StopLoss => r.(slExits := r.slExits + 1)
    case Timed => r.(timeExits := r.timeExits + 1)
  }

  /** The 30 most recent profits. */
  function Remember(recent: seq<real>, pnl: real): seq<real> {
    (if |recent| >= MAX_RECENT then recent[1..] else recent) + [pnl]
  }

  function Closed(s: State, i: nat, mark: real): State {
    var pnl := Profit(s.pos, mark);
    s.(result := Counted(WithDrawdown(Booked(s.result, pnl)), Kind(s.pos, mark)),
       recentPnl := Remember(s.recentPnl, pnl), lastTradeTick := i,
       pos := s.pos.(isOpen := false, trailingStop := 0.0),
       trades := s.trades + [Trade(s.pos.entryTick, i, s.pos.isLong, s.pos.entryPrice, mark,
                                   s.pos.trailingStop != 0.0, Kind(s.pos, mark), pnl)])
  }

  function Managed(s: State, i: nat, t: Input): State {
    if !s.pos.isOpen then s
    else
      var mark := Mark(s.pos, t);
      var tracked := s.(pos := Tracked(s.pos, mark));
      if MustClose(tracked.pos, i, mark) then Closed(tracked, i, mark) else tracked
  }

  function Confirmed(s: State, t: Input): State {
    if t.conviction >= CONV_THRESHOLD then s.(longConfirm := s.longConfirm + 1, shortConfirm := 0)
    else if t.conviction <= -CONV_THRESHOLD then s.(shortConfirm := s.shortConfirm + 1, longConfirm := 0)
    else s.(longConfirm := 0, shortConfirm := 0)
  }

  function Averaged(s: State, t: Input): State {
    var spread := t.ask - t.bid;
    s.(spreadEma := if s.spreadInit then 0.05 * spread + 0.95 * s.spreadEma else spread, spreadInit := true)
  }

  /** How many of the latest profits in a row are not positive. */
  function LossStreak(pnls: seq<real>): (n: nat)
    ensures n <= |pnls|
  {
    if pnls == [] || pnls[|pnls| - 1] > 0.0 then 0 else 1 + LossStreak(pnls[..|pnls| - 1])
  }

  function RequiredCooldown(pnls: seq<real>): nat {
    if LossStreak(pnls) >= MAX_CONSEC then LOSS_COOLDOWN else COOLDOWN
  }

  function StopDistance(atr14: real): (d: real)
    ensures MIN_SL <= d <= MAX_SL
  {
    Clamp(if atr14 > 0.5 then 1.5 * atr14 else 5.0, MIN_SL, MAX_SL)
  }

  function TargetDistance(stop: real, realizedVol20: real): real {
    var volTp := if realizedVol20 > 0.01 then 2.5 * realizedVol20 * 20.0 else 2.0;
    Max(MIN_TP, MinReal(volTp, stop * 0.6))
  }

  function WidenedStop(stop: real, target: real): real {
    if stop < 2.0 * target then MinReal(2.0 * target, MAX_SL) else stop
  }

  function LotSize(stop: real): real
    requires stop != 0.0
  {
    Max(MinReal(100000.0 * 0.01 / stop, 2.0), 0.01)
  }

  // The distances at which a position is opened, whatever the indicators say.
  lemma Distances(atr14: real, realizedVol20: real)
    ensures var stop := StopDistance(atr14); var target := TargetDistance(stop, realizedVol20);
            && MIN_TP <= target <= 0.6 * stop
            && stop <= WidenedStop(stop, target) <= MAX_SL
            && WidenedStop(stop, target) == MinReal(Max(stop, 2.0 * target), MAX_SL)
  {
  }

  // The stop is one and a half ATR between 3 and 15, or 5 when the ATR is too small to trust; the target is fifty
  // times the volatility, or 2 without it, between 1 and 60% of the stop.
  lemma DistancesByCase(atr14: real, vol: real, stop: real)
    requires MIN_SL <= stop <= MAX_SL
    ensures atr14 <= 0.5 ==> StopDistance(atr14) == 5.0
    ensures 0.5 < atr14 <= 2.0 ==> StopDistance(atr14) == 3.0
    ensures 2.0 <= atr14 <= 10.0 ==> StopDistance(atr14) == 1.5 * atr14
    ensures atr14 >= 10.0 ==> StopDistance(atr14) == 15.0
    ensures vol <= 0.01 ==> TargetDistance(stop, vol) == MinReal(2.0, 0.6 * stop)
    ensures 0.01 < vol <= 0.02 ==> TargetDistance(stop, vol) == 1.0
    ensures vol >= 0.02 && 50.0 * vol <= 0.6 * stop ==> TargetDistance(stop, vol) == 50.0 * vol
    ensures vol > 0.01 && 50.0 * vol >= 0.6 * stop ==> TargetDistance(stop, vol) == 0.6 * stop
  {
  }

  // The risk budget never binds: 1000 / 15 already exceeds the cap, so every position is two lots.
  lemma LotSizeIsAlwaysTheCap(stop: real)
    requires MIN_SL <= stop <= MAX_SL
    ensures LotSize(stop) == 2.0
  {
    var lots := 100000.0 * 0.01 / stop;
    assert lots * stop == 1000.0;
    assert lots < 2.0 ==> lots * stop <= 2.0 * stop;
  }

  // In general the lot risks 1000 at the stop, between a hundredth and two.
  lemma LotSizeByCase(stop: real)
    requires stop > 0.0
    ensures stop <= 500.0 ==> LotSize(stop) == 2.0
    ensures 500.0 <= stop <= 100000.0 ==> LotSize(stop) * stop == 1000.0
    ensures stop >= 100000.0 ==> LotSize(stop) == 0.01
  {
    var lots := 100000.0 * 0.01 / stop;
    assert lots * stop == 1000.0;
    assert lots < 2.0 ==> lots * stop < 2.0 * stop;
    assert lots > 2.0 ==> lots * stop > 2.0 * stop;
    assert lots < 0.01 ==> lots * stop < 0.01 * stop;
    assert lots > 0.01 ==> lots * stop > 0.01 * stop;
  }

  predicate MayEnter(s: State, i: nat, t: Input) {
    && !s.pos.isOpen && i >= WARMUP
    && i - s.lastTradeTick >= RequiredCooldown(s.recentPnl)
    && (s.spreadEma < 0.01 || t.ask - t.bid <= SPREAD_MULT * s.spreadEma)
    && (LongSignal(s, t) || ShortSignal(s, t))
  }

  predicate LongSignal(s: State, t: Input) {
    s.longConfirm >= SIGNAL_PERSIST && t.conviction >= CONV_THRESHOLD
  }

  predicate ShortSignal(s: State, t: Input) {
    s.shortConfirm >= SIGNAL_PERSIST && t.conviction <= -CONV_THRESHOLD
  }

  function Opened(isLong: bool, i: nat, t: Input): Position {
    var entry := if isLong then t.ask else t.bid;
    var stop := StopDistance(t.atr14);
    var target := TargetDistance(stop, t.realizedVol20);
    var wide := WidenedStop(stop, target);
    Distances(t.atr14, t.realizedVol20);
    Position(true, isLong, entry, if isLong then entry - wide else entry + wide,
             if isLong then entry + target else entry - target, 0.0, entry, LotSize(wide), i)
  }

  function Entered(s: State, i: nat, t: Input): State {
    if MayEnter(s, i, t) then s.(pos := Opened(LongSignal(s, t), i, t), longConfirm := 0, shortConfirm := 0) else s
  }

  function Tick(s: State, i: nat, t: Input): State {
    Entered(Managed(Confirmed(Averaged(s, t), t), i, t), i, t)
  }

  /** The loop's state after the first n ticks. */
  function Run(ticks: seq<Input>, n: nat): State
    requires n <= |ticks|
  {
    if n == 0 then START else Tick(Run(ticks, n - 1), n - 1, ticks[n - 1])
  }

  /** What is reported: a position still open after the last tick is closed at that tick's prices. */
  function Report(ticks: seq<Input>): Result {
    var s := Run(ticks, |ticks|);
    if s.pos.isOpen then Booked(s.result, Profit(s.pos, Mark(s.pos, ticks[|ticks| - 1])))
    else s.result
  }

  // ---------------------------------------------------------------- the trailing stop

  /** The stop and the target of an open position, on their sides of the entry. */
  ghost predicate Sound(p: Position) {
    && p.entryPrice > 0.0 && p.lotSize == 2.0
    && MIN_TP <= Gain(p, p.tp) <= 0.6 * MAX_SL
    && -MAX_SL <= Gain(p, p.sl) <= -MIN_SL
    && 0.0 <= Gain(p, p.bestPrice) && p.bestPrice > 0.0
  }

  /** Zero until the best price has covered 30% of the way to the target, then 60% of its gain. */
  ghost predicate TrailIsExact(p: Position) {
    if Gain(p, p.bestPrice) <= TRAIL_ACTIVATION * Gain(p, p.tp) then p.trailingStop == 0.0
    else p.trailingStop > 0.0 && Gain(p, p.trailingStop) == (1.0 - TRAIL_FACTOR) * Gain(p, p.bestPrice)
  }

  ghost predicate Armed(p: Position) {
    p.trailingStop != 0.0
  }

  lemma TrackingIsExact(p: Position, mark: real)
    requires Sound(p) && TrailIsExact(p) && mark > 0.0
    ensures var q := Tracked(p, mark);
            && Sound(q) && TrailIsExact(q)
            && q == p.(bestPrice := q.bestPrice, trailingStop := q.trailingStop)
            && Gain(q, q.bestPrice) == Max(Gain(p, p.bestPrice), Gain(p, mark))
  {
  }

  // An armed stop only moves towards profit, and stays strictly between the best price and
  // the entry plus 18% of the target distance.
  lemma TrailRatchets(p: Position, mark: real)
    requires Sound(p) && TrailIsExact(p) && mark > 0.0
    ensures var q := Tracked(p, mark);
            && (Armed(p) ==> Armed(q) && Gain(p, q.trailingStop) >= Gain(p, p.trailingStop))
            && (Armed(q) ==> 0.18 * Gain(q, q.tp) < Gain(q, q.trailingStop) < Gain(q, q.bestPrice))
  {
    TrackingIsExact(p, mark);
  }

  // The exit conditions of a tracked position whose best price had not reached the target.
  lemma ExitsExclude(p: Position, mark: real)
    requires Sound(p) && TrailIsExact(p) && mark > 0.0 && Gain(p, p.bestPrice) < Gain(p, p.tp)
    ensures var q := Tracked(p, mark);
            && !(HitTarget(q, mark) && (HitTrail(q, mark) || HitStop(q, mark)))
            && (Armed(q) && HitStop(q, mark) ==> HitTrail(q, mark))
            && (HitTarget(q, mark) ==> Gain(q, mark) >= MIN_TP)
            && (HitStop(q, mark) ==> Gain(q, mark) <= -MIN_SL)
            && (!HitTarget(q, mark) ==> Gain(q, q.bestPrice) < Gain(q, q.tp))
  {
    TrackingIsExact(p, mark);
  }

  // ---------------------------------------------------------------- loss streaks

  // Dropping old trades cannot change a streak that the remaining ones already decide.
  lemma {:induction false} StreakOfSuffix(all: seq<real>, k: nat)
    requires k <= |all|
    ensures LossStreak(all[k..]) == Min(LossStreak(all), |all| - k)
    decreases |all|
  {
    if k < |all| && all[|all| - 1] <= 0.0 {
      var front := all[..|all| - 1];
      assert all[k..][..|all| - k - 1] == front[k..];
      StreakOfSuffix(front, k);
    }
  }

  function Latest(all: seq<real>): seq<real> {
    if |all| <= MAX_RECENT then all else all[|all| - MAX_RECENT..]
  }

  lemma RememberingLatest(all: seq<real>, pnl: real)
    ensures Remember(Latest(all), pnl) == Latest(all + [pnl])
  {
  }

  // The deque of 30 profits decides the cooldown as the whole history would.
  lemma CooldownOfLatest(all: seq<real>)
    ensures RequiredCooldown(Latest(all)) == RequiredCooldown(all)
  {
    if |all| > MAX_RECENT {
      StreakOfSuffix(all, |all| - MAX_RECENT);
    }
  }

  // ---------------------------------------------------------------- whole runs

  function Pnls(trades: seq<Trade>): (pnls: seq<real>)
    ensures |pnls| == |trades|
  {
    if trades == [] then [] else Pnls(trades[..|trades| - 1]) + [trades[|trades| - 1].pnl]
  }

  ghost predicate PositivePrices(ticks: seq<Input>) {
    forall k :: 0 <= k < |ticks| ==> ticks[k].bid > 0.0 && ticks[k].ask > 0.0
  }

  /** What a completed trade looks like. */
  ghost predicate TradeIsSound(t: Trade) {
    && WARMUP <= t.entryTick < t.exitTick <= t.entryTick + HARD_TIME_EXIT
    && (t.kind.TakeProfit? ==> t.pnl >= 2.0 * MIN_TP)
    && (t.kind.StopLoss? ==> t.pnl <= -2.0 * MIN_SL && !t.armed)
    && (t.kind.Trail? ==> t.armed)
    && (t.kind.Timed? ==> t.exitTick >= t.entryTick + TIME_EXIT
                          && (t.pnl >= 0.1 || t.exitTick == t.entryTick + HARD_TIME_EXIT))
  }

  /** An entry keeps the cooldown that the trades before it require. */
  ghost predicate Cooled(before: seq<Trade>, entryTick: nat) {
    before != [] ==> entryTick >= before[|before| - 1].exitTick + RequiredCooldown(Pnls(before))
  }

  ghost predicate HistoryIsSound(trades: seq<Trade>) {
    && (forall k :: 0 <= k < |trades| ==> TradeIsSound(trades[k]))
    && (forall k :: 0 <= k < |trades| ==> Cooled(trades[..k], trades[k].entryTick))
  }

  ghost predicate Balanced(r: Result, trades: seq<Trade>) {
    var pnls := Pnls(trades);
    && r.totalTrades == |trades| == r.winners + r.losers
    && r.tpExits + r.trailExits + r.slExits + r.timeExits == r.totalTrades
    && r.tpExits <= r.winners && r.slExits <= r.losers
    && r.totalPnl == Sum(pnls) == r.grossProfit - r.grossLoss
    && r.currentEquity == START_EQUITY + r.totalPnl
    && r.grossProfit >= 0.0 && r.grossLoss >= 0.0
    && r.peakEquity == PeakAfter(START_EQUITY, START_EQUITY, pnls, |pnls|)
    && IsMaxDrawdown(r.maxDrawdown, START_EQUITY, START_EQUITY, pnls)
  }

  /** The last `length` of the first n ticks all carry conviction of the given sign. */
  ghost predicate Persisted(ticks: seq<Input>, n: nat, length: nat, long: bool)
    requires n <= |ticks|
  {
    && length <= n
    && forall k :: n - length <= k < n ==>
         if long then ticks[k].conviction >= CONV_THRESHOLD else ticks[k].conviction <= -CONV_THRESHOLD
  }

  /** bestPrice is the best of the entry and every mark since. */
  ghost predicate IsBest(p: Position, ticks: seq<Input>, n: nat)
    requires n <= |ticks|
  {
    && (forall k :: p.entryTick < k < n ==> Gain(p, Mark(p, ticks[k])) <= Gain(p, p.bestPrice))
    && (p.bestPrice == p.entryPrice || exists k :: p.entryTick < k < n && p.bestPrice == Mark(p, ticks[k]))
  }

  ghost predicate PositionIsSound(p: Position, trades: seq<Trade>, ticks: seq<Input>, n: nat)
    requires n <= |ticks|
  {
    p.isOpen ==>
      && WARMUP <= p.entryTick < n && n - 1 - p.entryTick < HARD_TIME_EXIT
      && Cooled(trades, p.entryTick) && Persisted(ticks, p.entryTick + 1, SIGNAL_PERSIST, p.isLong)
      && Sound(p) && TrailIsExact(p) && Gain(p, p.bestPrice) < Gain(p, p.tp)
      && IsBest(p, ticks, n)
  }

  /** What the position, the account and the history satisfy once n ticks have been managed. */
  ghost predicate Core(s: State, ticks: seq<Input>, n: nat)
    requires n <= |ticks|
  {
    && Balanced(s.result, s.trades) && HistoryIsSound(s.trades)
    && s.recentPnl == Latest(Pnls(s.trades))
    && s.lastTradeTick == (if s.trades == [] then 0 else s.trades[|s.trades| - 1].exitTick) <= n
    && PositionIsSound(s.pos, s.trades, ticks, n)
  }

  ghost predicate Confirms(s: State, ticks: seq<Input>, n: nat)
    requires n <= |ticks|
  {
    Persisted(ticks, n, s.longConfirm, true) && Persisted(ticks, n, s.shortConfirm, false)
  }

  ghost predicate Inv(s: State, ticks: seq<Input>, n: nat)
    requires n <= |ticks|
  {
    Core(s, ticks, n) && Confirms(s, ticks, n)
  }

  lemma PnlsOneMore(trades: seq<Trade>, t: Trade)
    ensures Pnls(trades + [t]) == Pnls(trades) + [t.pnl]
  {
    assert (trades + [t])[..|trades|] == trades;
  }

  lemma BalanceOneMore(r: Result, trades: seq<Trade>, t: Trade)
    requires Balanced(r, trades) && TradeIsSound(t)
    ensures Balanced(Counted(WithDrawdown(Booked(r, t.pnl)), t.kind), trades + [t])
  {
    hide Pnls, Sum, PeakAfter, IsMaxDrawdown;
    var pnls := Pnls(trades);
    PnlsOneMore(trades, t);
    OneMoreClose(START_EQUITY, START_EQUITY, pnls, t.pnl, r.maxDrawdown);
    assert pnls[..|pnls|] == pnls;
  }

  lemma HistoryOneMore(trades: seq<Trade>, t: Trade)
    requires HistoryIsSound(trades) && TradeIsSound(t) && Cooled(trades, t.entryTick)
    ensures HistoryIsSound(trades + [t])
  {
    forall k | 0 <= k <= |trades| ensures Cooled((trades + [t])[..k], (trades + [t])[k].entryTick) {
      assert (trades + [t])[..k] == trades[..k];
      assert trades[..|trades|] == trades;
    }
  }

  lemma ClosingKeepsCore(s: State, ticks: seq<Input>, n: nat, mark: real)
    requires n < |ticks| && Core(s, ticks, n) && s.pos.isOpen && mark > 0.0
    requires MustClose(Tracked(s.pos, mark), n, mark)
    ensures Core(Closed(s.(pos := Tracked(s.pos, mark)), n, mark), ticks, n + 1)
  {
    var p := Tracked(s.pos, mark);
    var r := Closed(s.(pos := p), n, mark);
    TrackingIsExact(s.pos, mark);
    ExitsExclude(s.pos, mark);
    var t := r.trades[|s.trades|];
    assert TradeIsSound(t);
    BalanceOneMore(s.result, s.trades, t);
    HistoryOneMore(s.trades, t);
    RememberingLatest(Pnls(s.trades), t.pnl);
    assert (s.trades + [t])[..|s.trades|] == s.trades;
  }

  lemma BestStaysBest(p: Position, ticks: seq<Input>, n: nat)
    requires n < |ticks| && IsBest(p, ticks, n) && p.entryTick < n
    requires Sound(p) && TrailIsExact(p) && Mark(p, ticks[n]) > 0.0
    ensures IsBest(Tracked(p, Mark(p, ticks[n])), ticks, n + 1)
  {
    var mark := Mark(p, ticks[n]);
    TrackingIsExact(p, mark);
    var q := Tracked(p, mark);
    hide Tracked, Sound, TrailIsExact;
    assert q.bestPrice == p.bestPrice || q.bestPrice == Mark(q, ticks[n]);
    assert forall k :: p.entryTick < k < n ==> Mark(q, ticks[k]) == Mark(p, ticks[k]);
    assert forall x :: Gain(q, x) == Gain(p, x);
  }

  lemma HoldingKeepsCore(s: State, ticks: seq<Input>, n: nat)
    requires n < |ticks| && Core(s, ticks, n) && s.pos.isOpen && PositivePrices(ticks)
    requires !MustClose(Tracked(s.pos, Mark(s.pos, ticks[n])), n, Mark(s.pos, ticks[n]))
    ensures Core(s.(pos := Tracked(s.pos, Mark(s.pos, ticks[n]))), ticks, n + 1)
  {
    hide Balanced, HistoryIsSound, IsBest, Cooled, Persisted, Latest, Sound, TrailIsExact, Tracked,
         HitTarget, HitStop, HitTrail;
    var mark := Mark(s.pos, ticks[n]);
    TrackingIsExact(s.pos, mark);
    ExitsExclude(s.pos, mark);
    BestStaysBest(s.pos, ticks, n);
  }

  lemma ManagingKeepsCore(s: State, ticks: seq<Input>, n: nat)
    requires n < |ticks| && Core(s, ticks, n) && PositivePrices(ticks)
    ensures var m := Managed(s, n, ticks[n]);
            Core(m, ticks, n + 1) && m.longConfirm == s.longConfirm && m.shortConfirm == s.shortConfirm
  {
    hide Balanced, HistoryIsSound, Sound, TrailIsExact, IsBest, Persisted, Latest, MustClose;
    if s.pos.isOpen {
      if MustClose(Tracked(s.pos, Mark(s.pos, ticks[n])), n, Mark(s.pos, ticks[n])) {
        ClosingKeepsCore(s, ticks, n, Mark(s.pos, ticks[n]));
      } else {
        HoldingKeepsCore(s, ticks, n);
      }
    }
  }

  lemma OpenedIsSound(isLong: bool, i: nat, t: Input)
    requires t.bid > 0.0 && t.ask > 0.0
    ensures var p := Opened(isLong, i, t);
            Sound(p) && TrailIsExact(p) && p.isLong == isLong && p.entryTick == i && p.isOpen
            && p.bestPrice == p.entryPrice && Gain(p, p.bestPrice) < Gain(p, p.tp)
  {
    Distances(t.atr14, t.realizedVol20);
    var stop := StopDistance(t.atr14);
    LotSizeIsAlwaysTheCap(WidenedStop(stop, TargetDistance(stop, t.realizedVol20)));
    hide TargetDistance, WidenedStop, LotSize, Clamp, StopDistance;
  }

  // An entry is backed by eight ticks of one sign and keeps the cooldown of the whole history.
  lemma EntryIsBacked(s: State, ticks: seq<Input>, n: nat)
    requires n < |ticks| && Inv(s, ticks, n + 1) && MayEnter(s, n, ticks[n])
    ensures Cooled(s.trades, n) && Persisted(ticks, n + 1, SIGNAL_PERSIST, LongSignal(s, ticks[n]))
  {
    hide Balanced, HistoryIsSound, PositionIsSound, Latest, RequiredCooldown;
    CooldownOfLatest(Pnls(s.trades));
  }

  lemma EntryIsSound(p: Position, trades: seq<Trade>, ticks: seq<Input>, n: nat, long: bool)
    requires WARMUP <= n < |ticks| && Cooled(trades, n) && Persisted(ticks, n + 1, SIGNAL_PERSIST, long)
    requires p == Opened(long, n, ticks[n]) && PositivePrices(ticks)
    ensures PositionIsSound(p, trades, ticks, n + 1)
  {
    hide Opened, Sound, TrailIsExact, Gain, Cooled, Persisted;
    OpenedIsSound(long, n, ticks[n]);
  }

  lemma EnteringKeepsInv(s: State, ticks: seq<Input>, n: nat)
    requires n < |ticks| && Inv(s, ticks, n + 1) && PositivePrices(ticks)
    ensures Inv(Entered(s, n, ticks[n]), ticks, n + 1)
  {
    hide Balanced, HistoryIsSound, Latest, Opened, PositionIsSound, RequiredCooldown, Cooled,
         LongSignal, ShortSignal, Pnls;
    if MayEnter(s, n, ticks[n]) {
      EntryIsBacked(s, ticks, n);
      var long := LongSignal(s, ticks[n]);
      EntryIsSound(Opened(long, n, ticks[n]), s.trades, ticks, n, long);
    }
  }

  lemma TickKeepsInv(s: State, ticks: seq<Input>, n: nat)
    requires n < |ticks| && Inv(s, ticks, n) && PositivePrices(ticks)
    ensures Inv(Tick(s, n, ticks[n]), ticks, n + 1)
  {
    hide Balanced, HistoryIsSound, PositionIsSound, Latest, Managed, Entered;
    var c := Confirmed(Averaged(s, ticks[n]), ticks[n]);
    assert Core(c, ticks, n) && Confirms(c, ticks, n + 1);
    ManagingKeepsCore(c, ticks, n);
    EnteringKeepsInv(Managed(c, n, ticks[n]), ticks, n);
  }

  lemma NoTradesBalance(r: Result, trades: seq<Trade>)
    requires r == NO_TRADES && trades == []
    ensures Balanced(r, trades)
  {
    var pnls := Pnls(trades);
    assert Sum(pnls) == r.totalPnl;
    assert PeakAfter(START_EQUITY, START_EQUITY, pnls, |pnls|) == r.peakEquity;
    assert IsMaxDrawdown(r.maxDrawdown, START_EQUITY, START_EQUITY, pnls);
    hide IsMaxDrawdown, PeakAfter, Sum, Pnls;
  }

  lemma StartIsSound(s: State, ticks: seq<Input>)
    requires s == START
    ensures Inv(s, ticks, 0)
  {
    hide Balanced, Sound, TrailIsExact, IsBest, Cooled;
    NoTradesBalance(s.result, s.trades);
  }

  lemma {:induction false} RunKeepsInv(ticks: seq<Input>, n: nat)
    requires n <= |ticks| && PositivePrices(ticks)
    ensures Inv(Run(ticks, n), ticks, n)
    decreases n
  {
    hide Tick, Balanced, HistoryIsSound, PositionIsSound, Latest, Core, PositivePrices;
    if n == 0 {
      StartIsSound(Run(ticks, 0), ticks);
    } else {
      RunKeepsInv(ticks, n - 1);
      TickKeepsInv(Run(ticks, n - 1), ticks, n - 1);
    }
  }

  // ---------------------------------------------------------------- what a run guarantees

  lemma {:induction false} ThreeLosses(pnls: seq<real>)
    ensures LossStreak(pnls) >= MAX_CONSEC <==>
            |pnls| >= 3 && forall k :: |pnls| - 3 <= k < |pnls| ==> pnls[k] <= 0.0
  {
    var n := |pnls|;
    if n >= 1 {
      assert LossStreak(pnls) >= 1 <==> pnls[n - 1] <= 0.0;
      if n >= 2 {
        var two := pnls[..n - 1];
        assert LossStreak(two) >= 1 <==> pnls[n - 2] <= 0.0;
        if n >= 3 {
          var one := two[..n - 2];
          assert LossStreak(one) >= 1 <==> pnls[n - 3] <= 0.0;
        }
      }
    }
  }

  lemma CooldownMeans(before: seq<Trade>, entryTick: nat)
    requires before != [] && Cooled(before, entryTick)
    ensures var last := before[|before| - 1].exitTick;
            && entryTick >= last + 30
            && (|before| >= 3 && (forall j :: |before| - 3 <= j < |before| ==> before[j].pnl <= 0.0)
                ==> entryTick >= last + 300)
  {
    hide LossStreak, Pnls;
    ThreeLosses(Pnls(before));
    forall j | 0 <= j < |before| ensures Pnls(before)[j] == before[j].pnl {
      PnlsAt(before, j);
    }
  }

  // In every run: how far apart trades are.
  lemma TradesAreSpaced(ticks: seq<Input>, n: nat, k: nat)
    requires n <= |ticks| && PositivePrices(ticks) && 0 < k < |Run(ticks, n).trades|
    ensures var trades := Run(ticks, n).trades;
            && trades[k].entryTick >= trades[k - 1].exitTick + 30
            && trades[k].entryTick > trades[k - 1].entryTick + 30
            && (k >= 3 && (forall j :: k - 3 <= j < k ==> trades[j].pnl <= 0.0)
                ==> trades[k].entryTick >= trades[k - 1].exitTick + 300)
  {
    hide Run, Balanced, PositionIsSound, Latest, RequiredCooldown, Cooled;
    RunKeepsInv(ticks, n);
    var trades := Run(ticks, n).trades;
    CooldownMeans(trades[..k], trades[k].entryTick);
  }

  lemma {:induction false} PnlsAt(trades: seq<Trade>, j: nat)
    requires j < |trades|
    ensures Pnls(trades)[j] == trades[j].pnl
    decreases |trades|
  {
    if j < |trades| - 1 {
      PnlsAt(trades[..|trades| - 1], j);
    }
  }

  // In every run: the exits already made, and the position that is open after tick n - 1.
  lemma PositionsOfRun(ticks: seq<Input>, n: nat)
    requires n <= |ticks| && PositivePrices(ticks)
    ensures var s := Run(ticks, n);
            && (forall k :: 0 <= k < |s.trades| ==> TradeIsSound(s.trades[k]))
            && (s.pos.isOpen ==>
                  && Sound(s.pos) && TrailIsExact(s.pos) && IsBest(s.pos, ticks, n)
                  && n - 1 - s.pos.entryTick < HARD_TIME_EXIT
                  && Gain(s.pos, s.pos.sl) <= -MIN_SL && Gain(s.pos, s.pos.bestPrice) < Gain(s.pos, s.pos.tp)
                  && (Armed(s.pos) ==>
                        0.18 * Gain(s.pos, s.pos.tp) < Gain(s.pos, s.pos.trailingStop) < Gain(s.pos, s.pos.bestPrice)))
  {
    hide Run, Balanced, Latest, IsBest, Cooled, Persisted, TradeIsSound;
    RunKeepsInv(ticks, n);
  }

  // In every run, at the next tick: the target is never hit together with the stop or the trailing stop, and
  // an armed position that falls to its stop has also hit its trailing stop.
  lemma ExitsOfRun(ticks: seq<Input>, n: nat)
    requires n < |ticks| && PositivePrices(ticks) && Run(ticks, n).pos.isOpen
    ensures var p := Run(ticks, n).pos; var mark := Mark(p, ticks[n]); var q := Tracked(p, mark);
            && !(HitTarget(q, mark) && (HitTrail(q, mark) || HitStop(q, mark)))
            && (Armed(q) && HitStop(q, mark) ==> Kind(q, mark) == Trail)
            && (HitTarget(q, mark) ==> Gain(q, mark) >= MIN_TP) && (HitStop(q, mark) ==> Gain(q, mark) <= -MIN_SL)
  {
    hide Run, Tracked, HitTarget, HitStop, HitTrail, Sound, TrailIsExact, IsBest, TradeIsSound, Armed;
    PositionsOfRun(ticks, n);
    ExitsExclude(Run(ticks, n).pos, Mark(Run(ticks, n).pos, ticks[n]));
  }

  // The books balance, with or without the forced close after the last tick; the exit counters
  // and the drawdown only know the trades closed inside the loop.
  lemma ReportBalances(ticks: seq<Input>)
    requires PositivePrices(ticks)
    ensures var s, r := Run(ticks, |ticks|), Report(ticks);
            && r.totalTrades == r.winners + r.losers == |s.trades| + (if s.pos.isOpen then 1 else 0)
            && r.tpExits + r.trailExits + r.slExits + r.timeExits == |s.trades|
            && r.tpExits <= r.winners && r.slExits <= r.losers
            && r.totalPnl == r.grossProfit - r.grossLoss
            && r.currentEquity == 10000.0 + r.grossProfit - r.grossLoss
            && IsMaxDrawdown(r.maxDrawdown, START_EQUITY, START_EQUITY, Pnls(s.trades))
  {
    hide Tick, HistoryIsSound, PositionIsSound, Latest, IsMaxDrawdown, PeakAfter, Sum;
    RunKeepsInv(ticks, |ticks|);
  }

  // ---------------------------------------------------------------- the program

  method Streak(recentPnl: seq<real>) returns (consecLosses: nat)
    ensures consecLosses == LossStreak(recentPnl)
  {
    consecLosses := 0;
    var k := |recentPnl|;
    while k > 0 && recentPnl[k - 1] <= 0.0
      invariant 0 <= k <= |recentPnl| && recentPnl[..|recentPnl|] == recentPnl
      invariant LossStreak(recentPnl) == consecLosses + LossStreak(recentPnl[..k])
    {
      assert recentPnl[..k][..k - 1] == recentPnl[..k - 1];
      k := k - 1;
      consecLosses := consecLosses + 1;
    }
  }

  method Track(p: Position, mark: real) returns (pos: Position)
    ensures pos == Tracked(p, mark)
  {
    pos := p;
    if pos.isLong {
      if mark > pos.bestPrice { pos := pos.(bestPrice := mark); }
    } else {
      if mark < pos.bestPrice { pos := pos.(bestPrice := mark); }
    }
    var tpDist := Abs(pos.tp - pos.entryPrice);
    var move := if pos.isLong then mark - pos.entryPrice else pos.entryPrice - mark;
    if move > TRAIL_ACTIVATION * tpDist {
      if pos.isLong {
        var trail := pos.bestPrice - TRAIL_FACTOR * (pos.bestPrice - pos.entryPrice);
        if trail > pos.trailingStop { pos := pos.(trailingStop := trail); }
      } else {
        var trail := pos.bestPrice + TRAIL_FACTOR * (pos.entryPrice - pos.bestPrice);
        if pos.trailingStop == 0.0 || trail < pos.trailingStop { pos := pos.(trailingStop := trail); }
      }
    }
  }

  method Book(r: Result, pnl: real) returns (result: Result)
    ensures result == Booked(r, pnl)
  {
    result := r.(totalPnl := r.totalPnl + pnl, currentEquity := r.currentEquity + pnl,
                 totalTrades := r.totalTrades + 1);
    if pnl > 0.0 {
      result := result.(winners := result.winners + 1, grossProfit := result.grossProfit + pnl);
    } else {
      result := result.(losers := result.losers + 1, grossLoss := result.grossLoss + Abs(pnl));
    }
  }

  method CountExit(r: Result, hitTp: bool, hitTrail: bool, hitSl: bool) returns (result: Result)
    ensures result == Counted(r, if hitTp then TakeProfit
                                 else if hitTrail then Trail else if hitSl then StopLoss else Timed)
  {
    result := r;
    if hitTp {
      result := result.(tpExits := result.tpExits + 1);
    } else if hitTrail {
      result := result.(trailExits := result.trailExits + 1);
    } else if hitSl {
      result := result.(slExits := result.slExits + 1);
    } else {
      result := result.(timeExits := result.timeExits + 1);
    }
  }

  lemma TrackingKeepsLevels(p: Position, mark: real)
    ensures var q := Tracked(p, mark); q == p.(bestPrice := q.bestPrice, trailingStop := q.trailingStop)
  {
  }

  method Open(isLong: bool, i: nat, t: Input) returns (pos: Position)
    ensures pos == Opened(isLong, i, t)
  {
    var entry := if isLong then t.ask else t.bid;
    var atrSl := if t.atr14 > 0.5 then 1.5 * t.atr14 else 5.0;
    var slDist := Clamp(atrSl, MIN_SL, MAX_SL);
    var volTp := if t.realizedVol20 > 0.01 then 2.5 * t.realizedVol20 * 20.0 else 2.0;
    var tpDist := Max(MIN_TP, MinReal(volTp, slDist * 0.6));
    if slDist < 2.0 * tpDist {
      slDist := MinReal(2.0 * tpDist, MAX_SL);
    }
    var lotSize := Max(MinReal(100000.0 * 0.01 / slDist, 2.0), 0.01);
    pos := Position(true, isLong, entry, if isLong then entry - slDist else entry + slDist,
                    if isLong then entry + tpDist else entry - tpDist, 0.0, entry, lotSize, i);
  }

  method Confirm(s: State, t: Input) returns (r: State)
    ensures r == Confirmed(Averaged(s, t), t)
  {
    r := s;
    var spread := t.ask - t.bid;
    if !r.spreadInit {
      r := r.(spreadEma := spread, spreadInit := true);
    } else {
      r := r.(spreadEma := 0.05 * spread + 0.95 * r.spreadEma);
    }
    if t.conviction >= CONV_THRESHOLD {
      r := r.(longConfirm := r.longConfirm + 1, shortConfirm := 0);
    } else if t.conviction <= -CONV_THRESHOLD {
      r := r.(shortConfirm := r.shortConfirm + 1, longConfirm := 0);
    } else {
      r := r.(longConfirm := 0, shortConfirm := 0);
    }
  }

  /** Books the exit of an open, tracked position. */
  method Close(s: State, i: nat, mark: real) returns (r: State)
    ensures r == Closed(s, i, mark)
  {
    hide Counted, Booked, Abs;
    var pos := s.pos;
    var rawPnl := if pos.isLong then mark - pos.entryPrice else pos.entryPrice - mark;
    assert rawPnl == Gain(pos, mark);
    var pnl := rawPnl * pos.lotSize;
    assert pnl == Profit(pos, mark);
    var result := Book(s.result, pnl);
    if result.currentEquity > result.peakEquity {
      result := result.(peakEquity := result.currentEquity);
    }
    var dd := result.peakEquity - result.currentEquity;
    if dd > result.maxDrawdown {
      result := result.(maxDrawdown := dd);
    }
    result := CountExit(result, HitTarget(pos, mark), HitTrail(pos, mark), HitStop(pos, mark));
    var recentPnl := s.recentPnl;
    if |recentPnl| >= MAX_RECENT {
      recentPnl := recentPnl[1..];
    }
    recentPnl := recentPnl + [pnl];
    r := s.(result := result, recentPnl := recentPnl, lastTradeTick := i,
            pos := pos.(isOpen := false, trailingStop := 0.0),
            trades := s.trades + [Trade(pos.entryTick, i, pos.isLong, pos.entryPrice, mark, pos.trailingStop != 0.0,
                                        Kind(pos, mark), pnl)]);
  }

  method Manage(s: State, i: nat, t: Input) returns (r: State)
    ensures r == Managed(s, i, t)
  {
    hide Tracked, Closed;
    r := s;
    if s.pos.isOpen {
      var mark := if s.pos.isLong then t.bid else t.ask;
      var rawPnl := if s.pos.isLong then mark - s.pos.entryPrice else s.pos.entryPrice - mark;
      var hitSl := if s.pos.isLong then mark <= s.pos.sl else mark >= s.pos.sl;
      var hitTp := if s.pos.isLong then mark >= s.pos.tp else mark <= s.pos.tp;
      TrackingKeepsLevels(s.pos, mark);
      var pos := Track(s.pos, mark);
      r := s.(pos := pos);
      var hitTrail := false;
      if pos.trailingStop > 0.0 {
        hitTrail := if pos.isLong then mark <= pos.trailingStop else mark >= pos.trailingStop;
      }
      var ticksOpen := i - pos.entryTick;
      var timeExit := ticksOpen >= TIME_EXIT && rawPnl >= 0.05;
      var hardExit := ticksOpen >= HARD_TIME_EXIT;
      if hitSl || hitTp || hitTrail || timeExit || hardExit {
        r := Close(r, i, mark);
      }
    }
  }

  method Enter(s: State, i: nat, t: Input) returns (r: State)
    ensures r == Entered(s, i, t)
  {
    hide Opened;
    r := s;
    var consecLosses := Streak(s.recentPnl);
    var requiredCooldown := if consecLosses >= MAX_CONSEC then LOSS_COOLDOWN else COOLDOWN;
    var sigLong := s.longConfirm >= SIGNAL_PERSIST && t.conviction >= CONV_THRESHOLD;
    var sigShort := s.shortConfirm >= SIGNAL_PERSIST && t.conviction <= -CONV_THRESHOLD;
    var spreadOk := s.spreadEma < 0.01 || t.ask - t.bid <= SPREAD_MULT * s.spreadEma;
    if !s.pos.isOpen && i >= WARMUP && i - s.lastTradeTick >= requiredCooldown && spreadOk && (sigLong || sigShort) {
      var pos := Open(sigLong, i, t);
      r := s.(pos := pos, longConfirm := 0, shortConfirm := 0);
    }
  }

  /** The whole backtest: the tick loop, then the close of a position left open. */
  method Simulate(ticks: seq<Input>) returns (result: Result, s: State)
    ensures s == Run(ticks, |ticks|) && result == Report(ticks)
  {
    hide Confirmed, Averaged, Managed, Entered, Booked;
    s := START;
    for i := 0 to |ticks|
      invariant s == Run(ticks, i) && (s.pos.isOpen ==> 0 < i)
    {
      s := Confirm(s, ticks[i]);
      s := Manage(s, i, ticks[i]);
      s := Enter(s, i, ticks[i]);
    }
    result := s.result;
    if s.pos.isOpen {
      var last := ticks[|ticks| - 1];
      var mark := if s.pos.isLong then last.bid else last.ask;
      var rawPnl := if s.pos.isLong then mark - s.pos.entryPrice else s.pos.entryPrice - mark;
      assert rawPnl == Gain(s.pos, Mark(s.pos, last));
      var pnl := rawPnl * s.pos.lotSize;
      assert pnl == Profit(s.pos, Mark(s.pos, last));
      result := Book(result, pnl);
    }
  }
}
