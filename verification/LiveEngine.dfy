/** The live engine's main loop: one tick closes the open position, or considers opening one. */
module LiveEngine {
  import opened Numbers
  import opened Options
  import opened Market
  import opened Sums
  import opened TransactionCosts
  import opened Account
  import opened Accounting
  import Risk = RiskEngine

  const SIGNAL_PERSIST: nat := 8
  const CONV_THRESHOLD: real := 0.25
  const GATE_BPS: nat := 6000
  const MAX_RISK: real := 0.05

  datatype Config = Config(startEquity: real, breaker: real, fees: Fees, baseRisk: real)

  datatype Polled = Polled(conviction: real, suggestedSl: real)

  /** All that one iteration reads from outside: the tick, the command line, the polled signals and the
      shared parameters. Each override is loaded twice, once to test it and once to use it, and the command
      line may store another value in between; riskWritten is a value it stores between the loop's own
      write of the risk and its use. */
  datatype Input = Input(tick: Tick, forceClose: bool, manualBuy: bool, manualSell: bool, signals: seq<Polled>,
                         params: Option<Risk.Params>, slTested: real, slUsed: real, tpTested: real, tpUsed: real,
                         riskWritten: Option<real>)

  datatype Position = Position(isOpen: bool, isLong: bool, entryPrice: real, sl: real, tp: real, qty: real)

  /** How a position was opened: on which input, and with what share of equity at risk; capped when that share
      is the one the gate has checked. */
  datatype Opening = Opening(order: Input, isLong: bool, entryPrice: real, slDist: real, tpDist: real, qty: real,
                             equity: real, spreadBps: real, risk: real, capped: bool)

  datatype Closing = Closing(opening: Opening, mark: real, spreadBps: real, atTarget: bool, pnl: real)

  /** What the loop carries from input to input; quiet counts the inputs heard since an order or a rejection
      last cleared the two confirmation counters. */
  datatype State = State(running: bool, spreadBps: real, pos: Position, algoConv: real, longConfirm: nat,
                         shortConfirm: nat, quiet: nat, gate: Risk.Gate, cliMaxRisk: real,
                         opening: Opening, pnls: seq<real>, closes: seq<Closing>)

  const NO_INPUT := Input(Tick(0, 0.0, 0.0, 0.0, 0.0), false, false, false, [], None, 0.0, 0.0, 0.0, 0.0, None)
  const NO_OPENING := Opening(NO_INPUT, false, 0.0, 0.0, 0.0, 0.0, 0.0, 0.0, 0.0, false)
  const FLAT := Position(false, false, 0.0, 0.0, 0.0, 0.0)

  function Start(cfg: Config): State {
    State(true, 0.0, FLAT, 0.0, 0, 0, 0, Risk.INITIAL_GATE, cfg.baseRisk, NO_OPENING, [], [])
  }

  // ---------------------------------------------------------------- one iteration

  function QuoteOf(t: Tick): Quote {
    Quote(t.bid, t.ask, t.last)
  }

  function Equity(cfg: Config, s: State): real {
    cfg.startEquity + Sum(s.pnls)
  }

  predicate Halted(cfg: Config, s: State) {
    Equity(cfg, s) <= cfg.breaker
  }

  function Mark(p: Position, t: Tick): real {
    if p.isLong then t.bid else t.ask
  }

  predicate HitStop(p: Position, mark: real) {
    if p.isLong then mark <= p.sl else mark >= p.sl
  }

  predicate HitTarget(p: Position, mark: real) {
    if p.isLong then mark >= p.tp else mark <= p.tp
  }

  function Managed(cfg: Config, s: State, i: Input): State {
    var mark := Mark(s.pos, i.tick);
    if s.pos.isOpen && (i.forceClose || HitStop(s.pos, mark) || HitTarget(s.pos, mark)) then
      var pnl := NetPnl(cfg.fees, s.spreadBps, s.pos.entryPrice, mark, s.pos.qty, s.pos.isLong);
      var c := s.(pos := s.pos.(isOpen := false), pnls := s.pnls + [pnl],
                  closes := s.closes + [Closing(s.opening, mark, s.spreadBps, HitTarget(s.pos, mark), pnl)]);
      c.(running := !Halted(cfg, c))
    else s
  }

  function LastConviction(signals: seq<Polled>, before: real): real {
    if signals == [] then before else signals[|signals| - 1].conviction
  }

  /** The latest suggested stop above half a dollar, or two dollars. */
  function LastStop(signals: seq<Polled>): (atr: real)
    ensures atr > 0.5
  {
    if signals == [] then 2.0
    else if signals[|signals| - 1].suggestedSl > 0.5 then signals[|signals| - 1].suggestedSl
    else LastStop(signals[..|signals| - 1])
  }

  function Heard(s: State, signals: seq<Polled>): State {
    var conv := LastConviction(signals, s.algoConv);
    var h := s.(algoConv := conv, quiet := s.quiet + 1);
    if conv >= CONV_THRESHOLD then h.(longConfirm := s.longConfirm + 1, shortConfirm := 0)
    else if conv <= -CONV_THRESHOLD then h.(shortConfirm := s.shortConfirm + 1, longConfirm := 0)
    else h.(longConfirm := 0, shortConfirm := 0)
  }

  predicate Manual(i: Input) {
    i.manualBuy || i.manualSell
  }

  predicate Wants(s: State, i: Input) {
    Manual(i) || s.longConfirm >= SIGNAL_PERSIST || s.shortConfirm >= SIGNAL_PERSIST
  }

  predicate GoesLong(s: State, i: Input) {
    i.manualBuy || (!i.manualSell && s.longConfirm >= SIGNAL_PERSIST)
  }

  /** The risk parameters after they have been read for one opening. */
  function WithRisk(s: State, i: Input): State {
    var gate := if i.params.Some? then Risk.Synced(s.gate, i.params.value) else s.gate;
    var stored := if i.params.Some? then gate.maxRisk else s.cliMaxRisk;
    s.(gate := gate, cliMaxRisk := if i.riskWritten.Some? then i.riskWritten.value else stored)
  }

  function StopDistance(i: Input): real {
    if i.slTested > 0.0 then i.slUsed else 1.5 * LastStop(i.signals)
  }

  function RawTarget(i: Input): real {
    if i.tpTested > 0.0 then i.tpUsed else 2.0 * StopDistance(i)
  }

  lemma WithRiskKeepsTheRest(s: State, i: Input)
    ensures var r := WithRisk(s, i); r == s.(gate := r.gate, cliMaxRisk := r.cliMaxRisk)
  {
  }

  /** The terms of the opening that state s, holding the risk parameters, would make. */
  function Terms(cfg: Config, s: State, i: Input): Opening {
    var isLong := GoesLong(s, i);
    var entry := if isLong then i.tick.ask else i.tick.bid;
    var qty := PositionSize(Equity(cfg, s), entry, StopDistance(i), s.cliMaxRisk);
    var breakeven := MinProfitPrice(cfg.fees, s.spreadBps, entry, qty);
    Opening(i, isLong, entry, StopDistance(i), Max(RawTarget(i), breakeven * 1.5), qty, Equity(cfg, s), s.spreadBps,
            s.cliMaxRisk, i.params.Some? && i.riskWritten.None?)
  }

  function PositionOf(o: Opening): Position {
    Position(true, o.isLong, o.entryPrice, if o.isLong then o.entryPrice - o.slDist else o.entryPrice + o.slDist,
             if o.isLong then o.entryPrice + o.tpDist else o.entryPrice - o.tpDist, o.qty)
  }

  /** The model gate and the cost hurdle; manual orders pass both. */
  predicate Rejected(cfg: Config, s: State, i: Input) {
    var o := Terms(cfg, s, i);
    && !Manual(i)
    && ((i.params.Some? && i.params.value.gateBps < GATE_BPS)
        || RawTarget(i) < MinProfitPrice(cfg.fees, s.spreadBps, o.entryPrice, o.qty))
  }

  function Considered(cfg: Config, s: State, i: Input): State {
    if Halted(cfg, s) || s.pos.isOpen || !Wants(s, i) then s
    else
      var r := WithRisk(s, i);
      if Rejected(cfg, r, i) then r.(longConfirm := 0, shortConfirm := 0, quiet := 0)
      else
        var o := Terms(cfg, r, i);
        r.(pos := PositionOf(o), opening := o, longConfirm := 0, shortConfirm := 0, quiet := 0)
  }

  function Step(cfg: Config, s: State, i: Input): State {
    if !s.running then s
    else
      var m := Managed(cfg, s.(spreadBps := NextSpread(s.spreadBps, QuoteOf(i.tick))), i);
      if m.running then Considered(cfg, Heard(m, i.signals), i) else m
  }

  function Run(cfg: Config, inputs: seq<Input>): State {
    if inputs == [] then Start(cfg) else Step(cfg, Run(cfg, inputs[..|inputs| - 1]), inputs[|inputs| - 1])
  }

  // ---------------------------------------------------------------- what every run keeps

  ghost predicate OpeningIsSound(cfg: Config, o: Opening) {
    && o.slDist == StopDistance(o.order) && o.equity > cfg.breaker
    && o.tpDist == Max(RawTarget(o.order), MinProfitPrice(cfg.fees, o.spreadBps, o.entryPrice, o.qty) * 1.5)
    && o.qty >= 0.0 && (o.qty > 0.0 ==> o.entryPrice >= 0.00000001 && o.slDist >= 0.00000001)
    && o.qty == PositionSize(o.equity, o.entryPrice, o.slDist, o.risk)
    && Product(o.qty, o.entryPrice) <= Max(o.equity, 0.0) && (o.capped ==> o.risk <= MAX_RISK)
  }

  ghost predicate ClosingIsSound(cfg: Config, c: Closing) {
    && OpeningIsSound(cfg, c.opening)
    && c.pnl == NetPnl(cfg.fees, c.spreadBps, c.opening.entryPrice, c.mark, c.opening.qty, c.opening.isLong)
    && (c.atTarget ==> Gain(c.opening.entryPrice, c.mark, c.opening.isLong) >= c.opening.tpDist)
  }

  ghost predicate Inv(cfg: Config, s: State) {
    && |s.closes| == |s.pnls|
    && (forall k :: 0 <= k < |s.closes| ==> ClosingIsSound(cfg, s.closes[k]) && s.closes[k].pnl == s.pnls[k])
    && (s.pos.isOpen ==>
          s.pos == PositionOf(s.opening) && OpeningIsSound(cfg, s.opening) && s.opening.equity == Equity(cfg, s))
    && (s.running <==> s.pnls == [] || !Halted(cfg, s)) && (s.pos.isOpen ==> s.running)
    && s.gate.maxRisk <= MAX_RISK
  }

  lemma TermsAreSound(cfg: Config, s: State, i: Input)
    requires !Halted(cfg, s) && s.gate.maxRisk <= MAX_RISK
    ensures OpeningIsSound(cfg, Terms(cfg, WithRisk(s, i), i))
    ensures WithRisk(s, i).gate.maxRisk <= MAX_RISK && Terms(cfg, WithRisk(s, i), i).equity == Equity(cfg, s)
  {
    hide Product, Ratio, PositionSize, MinProfitPrice, Sum, LastStop;
    var r := WithRisk(s, i);
    var o := Terms(cfg, r, i);
    SizeIsBounded(Equity(cfg, r), o.entryPrice, o.slDist, r.cliMaxRisk);
  }

  lemma ManagingKeepsInv(cfg: Config, s: State, i: Input)
    requires Inv(cfg, s) && s.running
    ensures Inv(cfg, Managed(cfg, s, i))
  {
    hide OpeningIsSound, NetPnl, Sum;
  }

  lemma ConsideringKeepsInv(cfg: Config, s: State, i: Input)
    requires Inv(cfg, s) && s.running
    ensures Inv(cfg, Considered(cfg, s, i))
  {
    hide OpeningIsSound, ClosingIsSound, Sum, Terms, Rejected;
    if !Halted(cfg, s) {
      TermsAreSound(cfg, s, i);
    }
  }

  lemma {:induction false} RunKeepsInv(cfg: Config, inputs: seq<Input>)
    ensures Inv(cfg, Run(cfg, inputs))
    decreases |inputs|
  {
    hide Managed, Considered, NextSpread, OpeningIsSound, ClosingIsSound;
    if inputs != [] {
      var before, i := Run(cfg, inputs[..|inputs| - 1]), inputs[|inputs| - 1];
      RunKeepsInv(cfg, inputs[..|inputs| - 1]);
      if before.running {
        var s := before.(spreadBps := NextSpread(before.spreadBps, QuoteOf(i.tick)));
        ManagingKeepsInv(cfg, s, i);
        var m := Managed(cfg, s, i);
        if m.running {
          ConsideringKeepsInv(cfg, Heard(m, i.signals), i);
        }
      }
    }
  }

  function LossAt(p: Position, exit: real): real {
    Product(p.qty, p.entryPrice - exit)
  }

  // In every run, an open position was opened above the circuit breaker, never costs more than the equity it
  // was opened with, and if it holds anything has its stop strictly on the losing side of its entry.
  lemma OpenPositions(cfg: Config, inputs: seq<Input>)
    ensures var s := Run(cfg, inputs); var p := s.pos; var equity := Equity(cfg, s);
            p.isOpen ==>
              && s.running && equity > cfg.breaker && p.qty >= 0.0
              && (p.qty > 0.0 ==> Gain(p.entryPrice, p.sl, p.isLong) < 0.0)
              && Product(p.qty, p.entryPrice) <= Max(equity, 0.0)
              && (forall exit: real :: p.isLong && exit >= 0.0 ==> LossAt(p, exit) <= Max(equity, 0.0))
  {
    hide Run, Product, Sum, MinProfitPrice, PositionSize, StopDistance, RawTarget;
    RunKeepsInv(cfg, inputs);
    var p := Run(cfg, inputs).pos;
    if p.isOpen {
      forall exit: real | exit >= 0.0 ensures LossAt(p, exit) <= Product(p.qty, p.entryPrice) {
        LossGrowsWithDistance(p.qty, p.entryPrice, exit);
      }
    }
  }

  /** No stop override was in force when tested, or the value then used is positive. */
  predicate StopIsSane(i: Input) {
    i.slTested <= 0.0 || i.slUsed > 0.0
  }

  predicate TargetIsSane(i: Input) {
    if i.tpTested > 0.0 then i.tpUsed > 0.0 else StopIsSane(i)
  }

  lemma DistancesAreSaneIff(i: Input)
    ensures StopDistance(i) > 0.0 <==> StopIsSane(i)
    ensures RawTarget(i) > 0.0 <==> TargetIsSane(i)
  {
  }

  // The hurdle is positive exactly when nothing is traded or the round trip costs something.
  lemma HurdleSign(fees: Fees, spread: real, entry: real, qty: real)
    requires qty >= 0.0 && (qty > 0.0 ==> entry >= 0.00000001)
    ensures MinProfitPrice(fees, spread, entry, qty) > 0.0
            <==> qty < 0.000000000000001 || RoundTripBps(fees, spread, qty) > 0.0
  {
    hide RoundTripBps;
    var bps := RoundTripBps(fees, spread, qty);
    assert entry > 0.0 && bps > 0.0 ==> entry * bps > 0.0;
    assert entry > 0.0 && bps <= 0.0 ==> entry * (-bps) >= 0.0;
  }

  // In every run, the stop of an open position is strictly on the losing side of its entry if and only if the
  // command line did not clear the stop override between its two loads; its target is strictly on the winning
  // side if and only if the same holds for the distance the target came from, nothing is held, or the round
  // trip costs something.
  lemma SidesIff(cfg: Config, inputs: seq<Input>)
    ensures var s := Run(cfg, inputs); var p, o := s.pos, s.opening;
            p.isOpen ==>
              && (Gain(p.entryPrice, p.sl, p.isLong) < 0.0 <==> StopIsSane(o.order))
              && (Gain(p.entryPrice, p.tp, p.isLong) > 0.0 <==>
                    TargetIsSane(o.order) || p.qty < 0.000000000000001
                    || RoundTripBps(cfg.fees, o.spreadBps, p.qty) > 0.0)
              && o.order in inputs
  {
    hide Run, Product, Sum, MinProfitPrice, PositionSize, RoundTripBps, StopDistance, RawTarget,
         StopIsSane, TargetIsSane;
    RunKeepsInv(cfg, inputs);
    OrderIsAnInput(cfg, inputs);
    var s := Run(cfg, inputs);
    if s.pos.isOpen {
      var o := s.opening;
      DistancesAreSaneIff(o.order);
      HurdleSign(cfg.fees, o.spreadBps, o.entryPrice, o.qty);
    }
  }

  lemma {:induction false} OrderIsAnInput(cfg: Config, inputs: seq<Input>)
    ensures Run(cfg, inputs).pos.isOpen ==> Run(cfg, inputs).opening.order in inputs
    decreases |inputs|
  {
    hide NextSpread, NetPnl, Rejected, Wants, Halted, Sum, PositionSize, MinProfitPrice, HitStop, HitTarget, Heard;
    if inputs != [] {
      var before, i := inputs[..|inputs| - 1], inputs[|inputs| - 1];
      OrderIsAnInput(cfg, before);
      OrderAfterStep(cfg, Run(cfg, before), i);
      assert inputs == before + [i];
    }
  }

  lemma OrderAfterStep(cfg: Config, s: State, i: Input)
    ensures var t := Step(cfg, s, i);
            t.pos.isOpen ==> t.opening.order == i || (s.pos.isOpen && t.opening == s.opening)
  {
    hide NextSpread, NetPnl, Rejected, Wants, Halted, Equity, Sum, PositionSize, MinProfitPrice, HitStop, HitTarget,
         RawTarget, StopDistance, PositionOf, GoesLong, LastConviction, Max;
  }

  /** A manual buy at 10 whose stop override is 1 when tested and another value when used. */
  function ClearedStop(used: real): Input {
    Input(Tick(0, 10.0, 10.0, 1.0, 10.0), false, true, false, [], Some(Risk.Params(0, 2.0, 6000)),
          1.0, used, 2.0, 2.0, None)
  }

  // A run in which the override is cleared between its loads: a position of no quantity opens with its stop at
  // its entry or on the winning side.
  lemma ClearedStopIsOnTheWrongSide(used: real)
    requires used <= 0.0
    ensures var s := Run(EscapeConfig(), [ClearedStop(used)]);
            s.pos.isOpen && s.pos.qty == 0.0 && Gain(s.pos.entryPrice, s.pos.sl, s.pos.isLong) >= 0.0
  {
    hide Run, Step, WithRisk, Terms, PositionOf, Gain, RoundTripBps;
    var cfg, i := EscapeConfig(), ClearedStop(used);
    OneInput(cfg, i);
    ManualOrderOpens(cfg, Start(cfg), i);
    OpenPositions(cfg, [i]);
    SidesIff(cfg, [i]);
    OneOrder(cfg, i);
  }

  function FreeConfig(): Config {
    Config(100.0, 7.0, Fees(0.0, 0.0, 0.75, false, 0.0, 0.0), 0.02)
  }

  /** A manual buy at 10 whose target override is 1 when tested and another value when used. */
  function ClearedTarget(used: real): Input {
    Input(Tick(0, 10.0, 10.0, 1.0, 10.0), false, true, false, [], Some(Risk.Params(0, 2.0, 6000)),
          1.0, 1.0, 1.0, used, None)
  }

  // The same for the target of a real position, when trading costs nothing.
  lemma ClearedTargetIsOnTheWrongSide(used: real)
    requires used <= 0.0
    ensures var s := Run(FreeConfig(), [ClearedTarget(used)]);
            s.pos.isOpen && s.pos.qty > 0.0 && Gain(s.pos.entryPrice, s.pos.tp, s.pos.isLong) <= 0.0
  {
    hide Run, Step, WithRisk, Terms, PositionOf, StopIsSane, Gain, RoundTripBps, Start;
    var cfg, i := FreeConfig(), ClearedTarget(used);
    OneInput(cfg, i);
    StoredRisk(cfg, i);
    ManualOrderOpens(cfg, Start(cfg), i);
    FreeTrade(WithRisk(Start(cfg), i), i);
    SidesIff(cfg, [i]);
    OneOrder(cfg, i);
  }

  lemma OneInput(cfg: Config, i: Input)
    ensures Run(cfg, [i]) == Step(cfg, Start(cfg), i)
  {
    hide Step;
    assert [i][..0] == [] && Run(cfg, []) == Start(cfg);
  }

  lemma OneOrder(cfg: Config, i: Input)
    ensures Run(cfg, [i]).pos.isOpen ==> Run(cfg, [i]).opening.order == i
  {
    hide Run;
    OrderIsAnInput(cfg, [i]);
  }

  lemma StoredRisk(cfg: Config, i: Input)
    requires i == ClearedTarget(i.tpUsed)
    ensures var r := WithRisk(Start(cfg), i); r.cliMaxRisk == 0.02 && r.pnls == []
  {
  }

  lemma TwoUnits()
    ensures PositionSize(100.0, 10.0, 1.0, 0.02) == 2.0
  {
    assert Ratio(Product(100.0, 0.02), 1.0) == 2.0 && Ratio(100.0, 10.0) == 10.0;
  }

  lemma NoSpread(q: Quote)
    requires q == Quote(10.0, 10.0, 10.0)
    ensures NextSpread(0.0, q) == 0.0
  {
    assert Ratio(0.0, 10.0) == 0.0;
  }

  lemma NoCost(fees: Fees, qty: real)
    requires fees == FreeConfig().fees
    ensures RoundTripBps(fees, 0.0, qty) == 0.0
  {
    ZeroTimes(fees.volumePenaltyBps, Abs(qty));
  }

  lemma ZeroTimes(zero: real, x: real)
    requires zero == 0.0
    ensures Product(zero, x) == 0.0
  {
  }

  lemma FreeTrade(r: State, i: Input)
    requires r.pnls == [] && r.cliMaxRisk == 0.02 && i == ClearedTarget(i.tpUsed)
    ensures var o := Terms(FreeConfig(), r.(spreadBps := NextSpread(0.0, QuoteOf(i.tick))), i);
            o.qty == 2.0 && RoundTripBps(FreeConfig().fees, o.spreadBps, o.qty) == 0.0
  {
    hide PositionSize, MinProfitPrice, NextSpread, RoundTripBps, LastStop;
    TwoUnits();
    NoSpread(QuoteOf(i.tick));
    NoCost(FreeConfig().fees, 2.0);
  }

  lemma ManualOrderOpens(cfg: Config, s: State, i: Input)
    requires s == Start(cfg) && cfg.startEquity > cfg.breaker && i.manualBuy
    ensures var t := Step(cfg, s, i); var r := WithRisk(s, i);
            && t.pos.isOpen && t.pos == PositionOf(t.opening) && t.pos.qty == t.opening.qty
            && t.opening == Terms(cfg, r.(spreadBps := NextSpread(0.0, QuoteOf(i.tick))), i)
  {
    hide PositionSize, MinProfitPrice, NextSpread, Risk.Synced, StopDistance, RawTarget, LastConviction;
    assert Sum(s.pnls) == 0.0;
  }

  /** The stop would lose at most 5% of the equity. */
  ghost predicate StopKeepsCap(p: Position, equity: real) {
    Product(p.qty, -Gain(p.entryPrice, p.sl, p.isLong)) <= Product(Max(equity, 0.0), MAX_RISK)
  }

  /** Known before the order: nothing is traded, at most 5% is asked for, or the stop is within 5% of the entry. */
  predicate CapCannotFail(o: Opening) {
    || o.equity <= 0.0 || o.entryPrice < 0.00000001 || o.slDist < 0.00000001
    || o.risk <= MAX_RISK || o.slDist <= MAX_RISK * o.entryPrice
  }

  // In every run, whoever wrote the risk, an open position's stop risks at most 5% of the equity exactly when
  // its terms say so; a risk that the gate has checked always does.
  lemma StopKeepsCapIff(cfg: Config, inputs: seq<Input>)
    ensures var s := Run(cfg, inputs);
            s.pos.isOpen ==>
              && (StopKeepsCap(s.pos, Equity(cfg, s)) <==> CapCannotFail(s.opening))
              && s.opening.slDist == -Gain(s.pos.entryPrice, s.pos.sl, s.pos.isLong)
              && s.opening.equity == Equity(cfg, s) && (s.opening.capped ==> StopKeepsCap(s.pos, Equity(cfg, s)))
  {
    hide Run, Product, Sum, MinProfitPrice, PositionSize;
    RunKeepsInv(cfg, inputs);
    var o := Run(cfg, inputs).opening;
    StopKeepsShareIff(o.equity, o.entryPrice, o.slDist, o.risk, MAX_RISK);
  }

  // The risk of an opening is what the command line wrote in between, else what the gate stored, else what
  // was there before.
  lemma RiskUsed(cfg: Config, s: State, i: Input)
    requires !s.pos.isOpen && Considered(cfg, s, i).pos.isOpen
    ensures var o := Considered(cfg, s, i).opening;
            && (i.riskWritten.Some? ==> o.risk == i.riskWritten.value)
            && (i.riskWritten.None? && i.params.Some? ==> o.risk == Risk.Synced(s.gate, i.params.value).maxRisk)
            && (i.riskWritten.None? && i.params.None? ==> o.risk == s.cliMaxRisk)
            && (o.capped <==> i.riskWritten.None? && i.params.Some?)
  {
    hide Risk.Synced, PositionSize, MinProfitPrice, Sum, LastStop;
  }

  function EscapeConfig(): Config {
    Config(100.0, 7.0, Fees(10.0, 10.0, 0.75, false, 1.5, 50.0), 0.02)
  }

  /** A manual order at 10 with a stop of 1, for which the command line writes a risk of one half. */
  function EscapeInput(): Input {
    Input(Tick(0, 10.0, 10.0, 1.0, 10.0), false, true, false, [], Some(Risk.Params(0, 2.0, 6000)),
          1.0, 1.0, 2.0, 2.0, Some(0.5))
  }

  // A run in which a risk written between the gate and its use opens a position that breaks the cap.
  lemma WrittenRiskEscapesTheCap()
    ensures var cfg, inputs := EscapeConfig(), [EscapeInput()];
            var s := Run(cfg, inputs);
            s.pos.isOpen && !StopKeepsCap(s.pos, Equity(cfg, s))
  {
    var cfg, i := EscapeConfig(), EscapeInput();
    var inputs := [i];
    assert inputs[..0] == [] && Run(cfg, []) == Start(cfg);
    StopKeepsCapIff(cfg, inputs);
    EscapeOpens(Start(cfg));
  }

  lemma EscapeOpens(s: State)
    requires s == Start(EscapeConfig())
    ensures var t := Step(EscapeConfig(), s, EscapeInput());
            t.pos.isOpen && !CapCannotFail(t.opening)
  {
    hide PositionSize, MinProfitPrice, NextSpread, Risk.Synced;
  }

  // The loop stops exactly when a trade leaves the equity at or below the breaker; nothing happens afterwards.
  lemma {:induction false} BreakerIsFinal(cfg: Config, inputs: seq<Input>, more: seq<Input>)
    ensures var s := Run(cfg, inputs);
            && (!s.running <==> s.pnls != [] && Halted(cfg, s))
            && (!s.running ==> !s.pos.isOpen && Run(cfg, inputs + more) == s)
    decreases |more|
  {
    RunKeepsInv(cfg, inputs);
    if more == [] {
      assert inputs + more == inputs;
    } else {
      BreakerIsFinal(cfg, inputs, more[..|more| - 1]);
      assert (inputs + more)[..|inputs + more| - 1] == inputs + more[..|more| - 1];
    }
  }

  ghost predicate TicksWithin(inputs: seq<Input>, lo: real, hi: real) {
    forall k :: 0 <= k < |inputs| ==>
      inputs[k].tick.last > 0.00000001 && lo <= LiveBps(QuoteOf(inputs[k].tick)) <= hi
  }

  ghost predicate SpreadsInBand(s: State, lo: real, hi: real) {
    && (s.spreadBps == 0.0 || lo <= s.spreadBps <= hi)
    && (s.pos.isOpen ==> lo <= s.opening.spreadBps <= hi)
    && (forall k :: 0 <= k < |s.closes| ==>
          lo <= s.closes[k].spreadBps <= hi && lo <= s.closes[k].opening.spreadBps <= hi)
  }

  lemma {:induction false} RunStaysInBand(cfg: Config, inputs: seq<Input>, lo: real, hi: real)
    requires TicksWithin(inputs, lo, hi)
    ensures SpreadsInBand(Run(cfg, inputs), lo, hi)
    decreases |inputs|
  {
    hide LiveBps, NextSpread, NetPnl, Rejected, Wants, Halted, Sum, Heard, WithRisk;
    if inputs != [] {
      var before, i := Run(cfg, inputs[..|inputs| - 1]), inputs[|inputs| - 1];
      RunStaysInBand(cfg, inputs[..|inputs| - 1], lo, hi);
      NextSpreadInHull(before.spreadBps, QuoteOf(i.tick), lo, hi);
      StepKeepsBand(cfg, before, i, lo, hi);
    }
  }

  lemma StepKeepsBand(cfg: Config, s: State, i: Input, lo: real, hi: real)
    requires SpreadsInBand(s, lo, hi) && lo <= NextSpread(s.spreadBps, QuoteOf(i.tick)) <= hi
    ensures SpreadsInBand(Step(cfg, s, i), lo, hi)
  {
    hide LiveBps, NextSpread, NetPnl, Rejected, Wants, Halted, Equity, Sum, PositionSize, MinProfitPrice, HitStop,
         HitTarget, RawTarget, StopDistance, PositionOf, GoesLong, LastConviction, Max;
  }

  // A trade closed at its target with a real quantity nets at least nothing whenever the round trip
  // has not become more than half again as expensive since it was opened.
  lemma TargetExitPays(cfg: Config, inputs: seq<Input>, k: nat)
    requires k < |Run(cfg, inputs).closes|
    ensures var c := Run(cfg, inputs).closes[k];
            var qty := c.opening.qty;
            c.atTarget && qty >= 0.000000000000001
            && RoundTripBps(cfg.fees, c.spreadBps, qty) <= 1.5 * RoundTripBps(cfg.fees, c.opening.spreadBps, qty)
            ==> c.pnl >= 0.0
  {
    hide Run, NetPnl, MinProfitPrice, RoundTripBps, Gain, Sum, Product;
    RunKeepsInv(cfg, inputs);
    var c := Run(cfg, inputs).closes[k];
    var o := c.opening;
    if c.atTarget && o.qty >= 0.000000000000001
       && RoundTripBps(cfg.fees, c.spreadBps, o.qty) <= 1.5 * RoundTripBps(cfg.fees, o.spreadBps, o.qty) {
      TargetPays(cfg.fees, o.spreadBps, c.spreadBps, o.entryPrice, c.mark, o.qty, o.isLong);
    }
  }

  // While all observed spreads stay in a band that cannot raise costs by more than half, every trade
  // closed at its target with a real quantity nets at least nothing.
  lemma TargetExitsPay(cfg: Config, inputs: seq<Input>, lo: real, hi: real, k: nat)
    requires TicksWithin(inputs, lo, hi)
    requires cfg.fees.volumePenaltyBps >= 0.0 && hi <= 1.5 * lo + 0.5 * FixedBps(cfg.fees)
    requires k < |Run(cfg, inputs).closes|
    ensures var c := Run(cfg, inputs).closes[k];
            c.atTarget && c.opening.qty >= 0.000000000000001 ==> c.pnl >= 0.0
  {
    hide Run, NetPnl, MinProfitPrice, FixedBps, RoundTripBps, Gain, Sum, Product;
    RunStaysInBand(cfg, inputs, lo, hi);
    var c := Run(cfg, inputs).closes[k];
    CostsGrowByHalfAtMost(cfg.fees, c.opening.spreadBps, c.spreadBps, c.opening.qty, lo, hi);
    TargetExitPays(cfg, inputs, k);
  }

  // ---------------------------------------------------------------- the program

  class Engine {
    const cfg: Config
    const costs: CostModel
    const account: AccountState
    const risk: Risk.RiskEngine
    var running: bool
    var pos: Position
    var algoConv: real
    var longConfirm: nat
    var shortConfirm: nat
    var cliMaxRisk: real
    ghost var quiet: nat
    ghost var opening: Opening
    ghost var closes: seq<Closing>

    ghost function View(): State
      reads this, costs, account, risk
    {
      State(running, costs.spreadCostBps, pos, algoConv, longConfirm, shortConfirm, quiet,
            Risk.Gate(risk.maxRiskPct, risk.lastVersionId), cliMaxRisk, opening, account.pnls, closes)
    }

    ghost predicate Valid()
      reads this, costs, account, risk
    {
      && costs.Valid() && account.Valid() && risk.Valid() && costs.fees == cfg.fees
      && account.startingEquity == cfg.startEquity && account.breakerEquity == cfg.breaker
    }

    constructor (config: Config)
      ensures Valid() && cfg == config && View() == Start(config) && fresh(costs) && fresh(account) && fresh(risk)
    {
      cfg := config;
      costs := new CostModel(config.fees);
      account := new AccountState(config.startEquity, config.breaker);
      risk := new Risk.RiskEngine();
      running, pos, algoConv, longConfirm, shortConfirm := true, FLAT, 0.0, 0, 0;
      cliMaxRisk, quiet, opening, closes := config.baseRisk, 0, NO_OPENING, [];
    }

    method Manage(i: Input)
      requires Valid() && running
      modifies this, account
      ensures Valid() && View() == Managed(cfg, old(View()), i)
    {
      hide NetPnl, Sum, PeakAfter;
      if pos.isOpen {
        var mark := if pos.isLong then i.tick.bid else i.tick.ask;
        var hitSl := if pos.isLong then mark <= pos.sl else mark >= pos.sl;
        var hitTp := if pos.isLong then mark >= pos.tp else mark <= pos.tp;
        if i.forceClose || hitSl || hitTp {
          var netPnl := NetPnl(costs.fees, costs.spreadCostBps, pos.entryPrice, mark, pos.qty, pos.isLong);
          account.RecordTrade(netPnl);
          closes := closes + [Closing(opening, mark, costs.spreadCostBps, hitTp, netPnl)];
          pos := pos.(isOpen := false);
          if account.IsTradingHalted() {
            running := false;
          }
        }
      }
    }

    method Drain(signals: seq<Polled>) returns (pipelineAtr: real)
      requires Valid()
      modifies this`algoConv
      ensures Valid() && algoConv == LastConviction(signals, old(algoConv)) && pipelineAtr == LastStop(signals)
    {
      pipelineAtr := 2.0;
      for k := 0 to |signals|
        invariant Valid() && algoConv == LastConviction(signals[..k], old(algoConv))
        invariant pipelineAtr == LastStop(signals[..k])
      {
        assert signals[..k + 1][..k] == signals[..k];
        algoConv := signals[k].conviction;
        if signals[k].suggestedSl > 0.5 {
          pipelineAtr := signals[k].suggestedSl;
        }
      }
      assert signals[..|signals|] == signals;
    }

    method Confirm()
      requires Valid()
      modifies this`longConfirm, this`shortConfirm, this`quiet
      ensures Valid() && View() == Heard(old(View()), [])
    {
      quiet := quiet + 1;
      if algoConv >= CONV_THRESHOLD {
        longConfirm, shortConfirm := longConfirm + 1, 0;
      } else if algoConv <= -CONV_THRESHOLD {
        shortConfirm, longConfirm := shortConfirm + 1, 0;
      } else {
        longConfirm, shortConfirm := 0, 0;
      }
    }

    method TakeRisk(i: Input)
      requires Valid()
      modifies this`cliMaxRisk, risk
      ensures Valid() && View() == WithRisk(old(View()), i)
    {
      hide Sum, Risk.Synced, Risk.SyncedAll, Risk.After, PeakAfter;
      if i.params.Some? {
        risk.SyncParameters(i.params.value);
        cliMaxRisk := risk.maxRiskPct;
      }
      if i.riskWritten.Some? {
        cliMaxRisk := i.riskWritten.value;   // the command line's write
      }
    }

    // The part of an opening that follows the gate: false when the costs forbid it.
    method Open(i: Input, isLong: bool, pipelineAtr: real) returns (done: bool)
      requires Valid() && pipelineAtr == LastStop(i.signals) && isLong == GoesLong(View(), i)
      modifies this`pos, this`opening
      ensures var o := Terms(cfg, old(View()), i);
              && done == (Manual(i)
                          || RawTarget(i) >= MinProfitPrice(cfg.fees, costs.spreadCostBps, o.entryPrice, o.qty))
              && Valid() && View() == if done then old(View()).(pos := PositionOf(o), opening := o) else old(View())
    {
      hide Sum, PositionSize, MinProfitPrice, Risk.SyncedAll, Risk.After, PeakAfter, LastStop;
      var entryPrice := if isLong then i.tick.ask else i.tick.bid;
      var slDist := if i.slTested > 0.0 then i.slUsed else 1.5 * pipelineAtr;
      var tpDistRaw := if i.tpTested > 0.0 then i.tpUsed else 2.0 * slDist;
      var qty := account.ComputePositionSize(entryPrice, slDist, cliMaxRisk);
      var breakeven := MinProfitPrice(costs.fees, costs.spreadCostBps, entryPrice, qty);
      if tpDistRaw < breakeven && !(i.manualBuy || i.manualSell) {
        return false;
      }
      var tpDist := Max(tpDistRaw, breakeven * 1.5);
      opening := Terms(cfg, View(), i);
      pos := Position(true, isLong, entryPrice, if isLong then entryPrice - slDist else entryPrice + slDist,
                      if isLong then entryPrice + tpDist else entryPrice - tpDist, qty);
      done := true;
    }

    method Consider(i: Input, pipelineAtr: real)
      requires Valid() && pipelineAtr == LastStop(i.signals)
      modifies this, risk
      ensures Valid() && View() == Considered(cfg, old(View()), i)
    {
      hide Terms, Sum, MinProfitPrice, Risk.SyncedAll, Risk.After, PeakAfter, LastStop, WithRisk, RawTarget;
      var manual := i.manualBuy || i.manualSell;
      var sigLong, sigShort := longConfirm >= SIGNAL_PERSIST, shortConfirm >= SIGNAL_PERSIST;
      if account.IsTradingHalted() || pos.isOpen || !(manual || sigLong || sigShort) {
        return;
      }
      var isLong := if i.manualBuy then true else if i.manualSell then false else sigLong;
      WithRiskKeepsTheRest(View(), i);
      TakeRisk(i);
      var done := false;
      if !(i.params.Some? && !manual && i.params.value.gateBps < GATE_BPS) {
        done := Open(i, isLong, pipelineAtr);
      }
      longConfirm, shortConfirm, quiet := 0, 0, 0;
    }

    method OnTick(i: Input)
      requires Valid() && running
      modifies this, costs, account, risk
      ensures Valid() && View() == Step(cfg, old(View()), i)
    {
      hide NextSpread, Managed, Considered, Sum, LastStop;
      costs.UpdateSpreadCost(i.tick.bid, i.tick.ask, i.tick.last);
      Manage(i);
      if running {
        var pipelineAtr := Drain(i.signals);
        Confirm();
        Consider(i, pipelineAtr);
      }
    }
  }

  /** The main loop, over the inputs of one session. */
  method Trade(cfg: Config, inputs: seq<Input>) returns (e: Engine)
    ensures e.Valid() && e.cfg == cfg && e.View() == Run(cfg, inputs)
  {
    hide Step, Start;
    e := new Engine(cfg);
    var k := 0;
    while k < |inputs| && e.running
      invariant 0 <= k <= |inputs| && fresh(e) && fresh(e.costs) && fresh(e.account) && fresh(e.risk)
      invariant e.Valid() && e.cfg == cfg && e.View() == Run(cfg, inputs[..k])
    {
      assert inputs[..k + 1][..k] == inputs[..k];
      e.OnTick(inputs[k]);
      k := k + 1;
    }
    assert inputs[..k] + inputs[k..] == inputs && (k == |inputs| ==> inputs[..k] == inputs);
    BreakerIsFinal(cfg, inputs[..k], inputs[k..]);
  }
}
