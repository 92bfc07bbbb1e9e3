/** When the live engine's loop holds, closes and opens, in terms of what it has been given. */
module LiveDecisions {
  import opened Market
  import opened Numbers
  import opened Sums
  import opened TransactionCosts
  import opened Account
  import opened LiveEngine
  import Risk = RiskEngine

  // ---------------------------------------------------------------- persistence

  /** The latest conviction among all signals polled so far, zero before the first. */
  function Conviction(inputs: seq<Input>): real {
    if inputs == [] then 0.0
    else
      var signals := inputs[|inputs| - 1].signals;
      if signals == [] then Conviction(inputs[..|inputs| - 1]) else signals[|signals| - 1].conviction
  }

  /** For how many inputs in a row up to now the conviction has been at least 0.25. */
  function LongRun(inputs: seq<Input>): nat {
    if inputs == [] || Conviction(inputs) < 0.25 then 0 else 1 + LongRun(inputs[..|inputs| - 1])
  }

  function ShortRun(inputs: seq<Input>): nat {
    if inputs == [] || Conviction(inputs) > -0.25 then 0 else 1 + ShortRun(inputs[..|inputs| - 1])
  }

  ghost predicate CountersAreRuns(s: State, inputs: seq<Input>) {
    && s.algoConv == Conviction(inputs) && s.longConfirm == Min(s.quiet, LongRun(inputs))
    && s.shortConfirm == Min(s.quiet, ShortRun(inputs))
  }

  lemma HearingCounts(s: State, inputs: seq<Input>, i: Input)
    requires CountersAreRuns(s, inputs)
    ensures CountersAreRuns(Heard(s, i.signals), inputs + [i]) && Heard(s, i.signals).quiet == s.quiet + 1
  {
    assert (inputs + [i])[..|inputs|] == inputs;
  }

  lemma StepCounts(cfg: Config, s: State, inputs: seq<Input>, i: Input)
    requires s.running ==> CountersAreRuns(s, inputs)
    ensures Step(cfg, s, i).running ==> CountersAreRuns(Step(cfg, s, i), inputs + [i])
  {
    hide NextSpread, NetPnl, Rejected, Wants, Halted, Terms, PositionOf, WithRisk, Heard, HitStop, HitTarget, LongRun,
         ShortRun, Conviction;
    if s.running {
      var m := Managed(cfg, s.(spreadBps := NextSpread(s.spreadBps, QuoteOf(i.tick))), i);
      HearingCounts(m, inputs, i);
      WithRiskKeepsTheRest(Heard(m, i.signals), i);
    }
  }

  // In every run the confirmation counters are the lengths of the current runs of conviction, counted from the
  // last order or rejection.
  lemma {:induction false} CountersOfRun(cfg: Config, inputs: seq<Input>)
    ensures Run(cfg, inputs).running ==> CountersAreRuns(Run(cfg, inputs), inputs)
    decreases |inputs|
  {
    hide Step, CountersAreRuns;
    if inputs == [] {
      StartCounts(cfg);
    } else {
      CountersOfRun(cfg, inputs[..|inputs| - 1]);
      StepCounts(cfg, Run(cfg, inputs[..|inputs| - 1]), inputs[..|inputs| - 1], inputs[|inputs| - 1]);
      assert inputs[..|inputs| - 1] + [inputs[|inputs| - 1]] == inputs;
    }
  }

  lemma StartCounts(cfg: Config)
    ensures CountersAreRuns(Start(cfg), [])
  {
  }

  lemma OneMoreInput(cfg: Config, inputs: seq<Input>, i: Input)
    ensures Run(cfg, inputs + [i]) == Step(cfg, Run(cfg, inputs), i)
  {
    hide Step;
    assert (inputs + [i])[..|inputs|] == inputs;
  }

  // ---------------------------------------------------------------- holding and closing

  /** No order to close, and the tick strictly between the two levels. */
  predicate Held(p: Position, i: Input) {
    !i.forceClose && if p.isLong then p.sl < i.tick.bid < p.tp else p.tp < i.tick.ask < p.sl
  }

  // In every run and for every next input: an open position stays as it is, with nothing closed, if and only if
  // nobody forces it closed and the tick lies strictly between its levels. Otherwise exactly one closing is
  // added, of that position, at the bid of a long or the ask of a short.
  lemma HoldsIff(cfg: Config, inputs: seq<Input>, i: Input)
    requires Run(cfg, inputs).pos.isOpen
    ensures var s, t := Run(cfg, inputs), Run(cfg, inputs + [i]);
            var mark := if s.pos.isLong then i.tick.bid else i.tick.ask;
            && (Held(s.pos, i) <==> t.pos == s.pos && t.closes == s.closes)
            && (Held(s.pos, i) ==>
                  t.opening == s.opening && t.pnls == s.pnls && t.quiet == s.quiet + 1
                  && t.gate == s.gate && t.cliMaxRisk == s.cliMaxRisk)
            && (!Held(s.pos, i) ==>
                  && |t.closes| == |s.closes| + 1 && t.closes[..|s.closes|] == s.closes
                  && t.closes[|s.closes|].opening == s.opening && t.closes[|s.closes|].mark == mark
                  && (t.closes[|s.closes|].atTarget <==> if s.pos.isLong then mark >= s.pos.tp else mark <= s.pos.tp)
                  && t.pnls == s.pnls + [NetPnl(cfg.fees, t.spreadBps, s.pos.entryPrice, mark, s.pos.qty,
                                                s.pos.isLong)])
  {
    hide Run, NextSpread, NetPnl, Rejected, Wants, Halted, Terms, PositionOf, LastConviction, OpeningIsSound,
         ClosingIsSound;
    RunKeepsInv(cfg, inputs);
    OneMoreInput(cfg, inputs, i);
  }

  function LatestProfit(before: seq<real>, after: seq<real>): real {
    if |after| > |before| then after[|before|] else 0.0
  }

  // In every run and for every next input: the spread average follows the spread of the tick relative to its last
  // price, and a closing moves the equity by its net profit.
  lemma SpreadAndEquityMove(cfg: Config, inputs: seq<Input>, i: Input)
    requires Run(cfg, inputs).running
    ensures var s, t, tick := Run(cfg, inputs), Run(cfg, inputs + [i]), i.tick;
            && (tick.last <= 0.00000001 ==> t.spreadBps == s.spreadBps)
            && (tick.last > 0.00000001 ==>
                  var live := Ratio(10000.0 * (tick.ask - tick.bid), tick.last);
                  if s.spreadBps < 0.000000000001 then t.spreadBps == live
                  else t.spreadBps - live == 0.98 * (s.spreadBps - live))
            && s.pnls <= t.pnls && |t.pnls| <= |s.pnls| + 1
            && Equity(cfg, t) == Equity(cfg, s) + LatestProfit(s.pnls, t.pnls)
  {
    hide Run, Step, NextSpread, LiveBps, Ratio, Sum;
    OneMoreInput(cfg, inputs, i);
    StepBooks(cfg, Run(cfg, inputs), i);
    SpreadFollows(Run(cfg, inputs).spreadBps, Run(cfg, inputs + [i]).spreadBps, i.tick);
  }

  lemma SpreadFollows(before: real, after: real, tick: Tick)
    requires after == NextSpread(before, QuoteOf(tick))
    ensures tick.last <= 0.00000001 ==> after == before
    ensures tick.last > 0.00000001 ==>
              var live := Ratio(10000.0 * (tick.ask - tick.bid), tick.last);
              if before < 0.000000000001 then after == live else after - live == 0.98 * (before - live)
  {
    hide NextSpread, LiveBps, Ratio;
    SpreadMoves(before, QuoteOf(tick));
    if tick.last > 0.00000001 {
      LiveBpsIs(QuoteOf(tick));
    }
  }

  lemma StepBooks(cfg: Config, s: State, i: Input)
    requires s.running
    ensures var t := Step(cfg, s, i);
            && t.spreadBps == NextSpread(s.spreadBps, QuoteOf(i.tick))
            && s.pnls <= t.pnls && |t.pnls| <= |s.pnls| + 1
            && Equity(cfg, t) == Equity(cfg, s) + LatestProfit(s.pnls, t.pnls)
  {
    hide NextSpread, Considered, Managed, Heard, Sum;
    var m := Managed(cfg, s.(spreadBps := NextSpread(s.spreadBps, QuoteOf(i.tick))), i);
    ManagingBooks(cfg, s.(spreadBps := NextSpread(s.spreadBps, QuoteOf(i.tick))), i);
    HearingKeepsBooks(m, i.signals);
    ConsideringKeepsBooks(cfg, Heard(m, i.signals), i);
    BooksMove(s.pnls, m.pnls);
  }

  lemma ManagingBooks(cfg: Config, s: State, i: Input)
    ensures var m := Managed(cfg, s, i);
            m.spreadBps == s.spreadBps && s.pnls <= m.pnls && |m.pnls| <= |s.pnls| + 1
  {
    hide NetPnl;
  }

  lemma HearingKeepsBooks(s: State, signals: seq<Polled>)
    ensures Heard(s, signals).pnls == s.pnls && Heard(s, signals).spreadBps == s.spreadBps
  {
  }

  lemma LiveBpsIs(q: Quote)
    requires q.mid > 0.00000001
    ensures LiveBps(q) == Ratio(10000.0 * (q.ask - q.bid), q.mid)
  {
    var share := Ratio(q.ask - q.bid, q.mid);
    assert share * q.mid == q.ask - q.bid;
    assert (10000.0 * share) * q.mid == 10000.0 * (q.ask - q.bid);
  }

  lemma BooksMove(before: seq<real>, after: seq<real>)
    requires before <= after && |after| <= |before| + 1
    ensures Sum(after) == Sum(before) + LatestProfit(before, after)
  {
    if |after| > |before| {
      assert after[..|before|] == before;
    } else {
      assert after == before;
    }
  }

  lemma ConsideringKeepsBooks(cfg: Config, s: State, i: Input)
    ensures Considered(cfg, s, i).pnls == s.pnls && Considered(cfg, s, i).spreadBps == s.spreadBps
  {
    hide Terms, PositionOf, Wants;
    WithRiskKeepsTheRest(s, i);
  }

  // ---------------------------------------------------------------- opening

  // The stop suggested last above half a dollar, or two dollars when there is none.
  lemma {:induction false} LastStopIs(signals: seq<Polled>)
    ensures (LastStop(signals) == 2.0 && forall k :: 0 <= k < |signals| ==> signals[k].suggestedSl <= 0.5)
            || exists k :: 0 <= k < |signals| && signals[k].suggestedSl > 0.5
                           && LastStop(signals) == signals[k].suggestedSl
                           && forall j :: k < j < |signals| ==> signals[j].suggestedSl <= 0.5
    decreases |signals|
  {
    if signals != [] && signals[|signals| - 1].suggestedSl <= 0.5 {
      var front := signals[..|signals| - 1];
      LastStopIs(front);
      if exists k :: 0 <= k < |front| && front[k].suggestedSl > 0.5 && LastStop(front) == front[k].suggestedSl
                     && forall j :: k < j < |front| ==> front[j].suggestedSl <= 0.5 {
        var k :| 0 <= k < |front| && front[k].suggestedSl > 0.5 && LastStop(front) == front[k].suggestedSl
                 && forall j :: k < j < |front| ==> front[j].suggestedSl <= 0.5;
        assert signals[k] == front[k];
      }
    }
  }

  /** What an order for this input would be, given the counters' view of the last inputs. */
  datatype Order = Order(isLong: bool, entry: real, stop: real, target: real, qty: real, hurdle: real)

  function OrderFor(cfg: Config, s: State, equity: real, spread: real, longSignal: bool, i: Input): Order {
    var isLong := i.manualBuy || (!i.manualSell && longSignal);
    var entry := if isLong then i.tick.ask else i.tick.bid;
    var risk := if i.riskWritten.Some? then i.riskWritten.value
                else if i.params.Some? then Risk.Synced(s.gate, i.params.value).maxRisk else s.cliMaxRisk;
    var stop := if i.slTested > 0.0 then i.slUsed else 1.5 * LastStop(i.signals);
    var qty := PositionSize(equity, entry, stop, risk);
    Order(isLong, entry, stop, if i.tpTested > 0.0 then i.tpUsed else 2.0 * stop, qty,
          MinProfitPrice(cfg.fees, spread, entry, qty))
  }

  predicate Confirmed(quiet: nat, run: nat) {
    quiet + 1 >= 8 && run >= 8
  }

  lemma ConsideringDecides(cfg: Config, s: State, i: Input)
    requires !s.pos.isOpen
    ensures var t := Considered(cfg, s, i);
            var o := OrderFor(cfg, s, Equity(cfg, s), s.spreadBps, s.longConfirm >= 8, i);
            && (t.pos.isOpen <==>
                  && Equity(cfg, s) > cfg.breaker
                  && (i.manualBuy || i.manualSell
                      || ((s.longConfirm >= 8 || s.shortConfirm >= 8)
                          && (i.params.Some? ==> i.params.value.gateBps >= 6000) && o.target >= o.hurdle)))
            && (t.pos.isOpen ==>
                  t.pos == Position(true, o.isLong, o.entry, if o.isLong then o.entry - o.stop else o.entry + o.stop,
                                    if o.isLong then o.entry + Max(o.target, o.hurdle * 1.5)
                                    else o.entry - Max(o.target, o.hurdle * 1.5), o.qty))
            && (!t.pos.isOpen ==> t.pos == s.pos)
            && var asked := Equity(cfg, s) > cfg.breaker
                            && (i.manualBuy || i.manualSell || s.longConfirm >= 8 || s.shortConfirm >= 8);
            && t.quiet == (if asked then 0 else s.quiet)
            && t.gate == (if asked && i.params.Some? then Risk.Synced(s.gate, i.params.value) else s.gate)
            && t.cliMaxRisk == (if !asked then s.cliMaxRisk else if i.riskWritten.Some? then i.riskWritten.value
                                else if i.params.Some? then t.gate.maxRisk else s.cliMaxRisk)
            && t.pnls == s.pnls && t.closes == s.closes && t.spreadBps == s.spreadBps
  {
    hide PositionSize, MinProfitPrice, Risk.Synced, Sum, LastStop;
    WithRiskKeepsTheRest(s, i);
  }

  // In every run and for every next input that finds the engine flat or closes its position: a position is opened
  // if and only if the equity is above the breaker and there is a manual order, or conviction has persisted for
  // eight inputs since the last order or rejection, the model gate is open and the target clears the cost hurdle.
  // It is on the side of the manual order, else of the persisted conviction; a long at the ask, a short at the bid.
  // Whoever asks, taken or rejected, starts the count anew and reads the risk parameters; nobody else does.
  lemma OpensIff(cfg: Config, inputs: seq<Input>, i: Input)
    requires Run(cfg, inputs).running && !(Run(cfg, inputs).pos.isOpen && Held(Run(cfg, inputs).pos, i))
    ensures var s, t := Run(cfg, inputs), Run(cfg, inputs + [i]);
            var long, short := Confirmed(s.quiet, LongRun(inputs + [i])), Confirmed(s.quiet, ShortRun(inputs + [i]));
            var o := OrderFor(cfg, s, Equity(cfg, t), t.spreadBps, long, i);
            && (t.pos.isOpen <==>
                  && Equity(cfg, t) > cfg.breaker
                  && (i.manualBuy || i.manualSell
                      || ((long || short) && (i.params.Some? ==> i.params.value.gateBps >= 6000)
                          && o.target >= o.hurdle)))
            && (t.pos.isOpen ==>
                  t.pos == Position(true, o.isLong, o.entry, if o.isLong then o.entry - o.stop else o.entry + o.stop,
                                    if o.isLong then o.entry + Max(o.target, o.hurdle * 1.5)
                                    else o.entry - Max(o.target, o.hurdle * 1.5), o.qty))
            && var asked := Equity(cfg, t) > cfg.breaker && (i.manualBuy || i.manualSell || long || short);
            && (t.running ==> t.quiet == if asked then 0 else s.quiet + 1)
            && t.gate == (if asked && i.params.Some? then Risk.Synced(s.gate, i.params.value) else s.gate)
            && t.cliMaxRisk == (if !asked then s.cliMaxRisk else if i.riskWritten.Some? then i.riskWritten.value
                                else if i.params.Some? then t.gate.maxRisk else s.cliMaxRisk)
  {
    hide Run, NextSpread, NetPnl, Considered, OrderFor, LongRun, ShortRun, OpeningIsSound, ClosingIsSound, Sum,
         LastConviction, Conviction;
    RunKeepsInv(cfg, inputs);
    CountersOfRun(cfg, inputs);
    OneMoreInput(cfg, inputs, i);
    var s := Run(cfg, inputs);
    var m := Managed(cfg, s.(spreadBps := NextSpread(s.spreadBps, QuoteOf(i.tick))), i);
    HearingCounts(m, inputs, i);
    var h := Heard(m, i.signals);
    ConsideringDecides(cfg, h, i);
    SameOrder(cfg, s, h, Equity(cfg, h), h.spreadBps, h.longConfirm >= 8, i);
  }

  lemma SameOrder(cfg: Config, s: State, h: State, equity: real, spread: real, long: bool, i: Input)
    requires s.gate == h.gate && s.cliMaxRisk == h.cliMaxRisk
    ensures OrderFor(cfg, s, equity, spread, long, i) == OrderFor(cfg, h, equity, spread, long, i)
  {
  }
}
