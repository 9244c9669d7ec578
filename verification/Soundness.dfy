/**
 * What every step of a backtest keeps: risk caps, solvency, conservation of value, the stop-loss
 * guarantee, and that exits are never refused.
 */
module Soundness {
  import opened Optional
  import opened Risk
  import opened Strategies
  import opened Backtesting

  /** The invariant of all reachable accounts. */
  ghost predicate Sound(limits: RiskLimits, a: Account) {
    && a.cash >= 0.0
    && a.position >= 0.0
    && (a.position > 0.0 <==> a.entry.Some?)
    && (a.entry.Some? ==> a.entry.value > 0.0)
    && (a.position > 0.0 ==> Admits(limits, a.position))
  }

  /** Value at cost: cash plus the open position at its entry price. */
  function ValueAtCost(a: Account): real {
    a.cash + if a.entry.Some? then Worth(a.position, a.entry.value) else 0.0
  }

  /** The stop is hit at this price. */
  ghost predicate Stopped(limits: RiskLimits, a: Account, price: real) {
    StopHit(limits, a.position, a.entry, price)
  }

  /** A buy that the account can take: flat, a sized buy signal, within both limits and affordable. */
  ghost predicate Buyable(limits: RiskLimits, decision: StrategyDecision, close: real, a: Account) {
    && a.position == 0.0
    && decision.action == Buy
    && decision.orderQuantity.Some?
    && Admits(limits, decision.orderQuantity.value)
    && decision.orderQuantity.value * close <= a.cash
  }

  /**
   * What one candle does to any account whatever, down to products of prices and quantities. A stop
   * that is hit turns the order into an exit; an exit needs an open position that is within the trade
   * limit; a buy needs a flat account, an order quantity within both limits and the cash to pay for it.
   */
  lemma OutcomeTable(limits: RiskLimits, decision: StrategyDecision, close: real, a: Account)
    ensures var outcome, size := Decide(limits, decision, close, a), decision.orderQuantity;
            var stopped := a.position > 0.0 && limits.stopLossPercent.Some? && a.entry.Some?
                           && 100.0 * (a.entry.value - close) >= limits.stopLossPercent.value * a.entry.value;
            && (outcome.Sold? <==>
                  && (stopped || decision.action == Sell)
                  && a.position > 0.0 && a.entry.Some?
                  && (limits.maxTradeQuantity.Some? ==> a.position <= limits.maxTradeQuantity.value))
            && (outcome.Bought? <==>
                  && decision.action == Buy
                  && a.position <= 0.0 && size.Some?
                  && (limits.maxTradeQuantity.Some? ==> size.value <= limits.maxTradeQuantity.value)
                  && (limits.maxPositionQuantity.Some? ==> a.position + size.value <= limits.maxPositionQuantity.value)
                  && size.value * close <= a.cash)
            && (outcome.Bought? ==> outcome.quantity == size.value)
            && (!outcome.NoTrade? ==>
                  outcome.reason == if stopped then StopLossReason else StrategyReason(decision.reason))
  {
    hide Evaluate;
    GateVerdict(limits, decision.action,
                if decision.action == Sell then Some(a.position) else decision.orderQuantity,
                a.position, a.entry, Some(close));
  }

  /**
   * The exact decision table of one candle, for any sound account: a position is sold exactly when
   * the stop is hit or the strategy says sell (no limit ever refuses an exit), and the sale carries
   * the stop-loss reason exactly when the stop is hit; a buy happens exactly when it is buyable.
   */
  lemma DecisionTable(limits: RiskLimits, decision: StrategyDecision, close: real, a: Account)
    requires Sound(limits, a)
    ensures var outcome := Decide(limits, decision, close, a);
            && (outcome.Sold? <==> a.position > 0.0 && (Stopped(limits, a, close) || decision.action == Sell))
            && (outcome.Sold? && Stopped(limits, a, close) ==> outcome.reason == StopLossReason)
            && (outcome.Sold? && !Stopped(limits, a, close) ==> outcome.reason == StrategyReason(decision.reason))
            && (outcome.Bought? <==> Buyable(limits, decision, close, a))
            && (outcome.Bought? ==> outcome.quantity == decision.orderQuantity.value
                                    && outcome.reason == StrategyReason(decision.reason))
  {
    hide Decide;
    OutcomeTable(limits, decision, close, a);
  }

  lemma WorthPositive(quantity: real, price: real)
    requires quantity > 0.0 && price > 0.0
    ensures Worth(quantity, price) > 0.0
  {
  }

  /** Selling at `price` turns the position's cost into cash plus the gain. */
  lemma WorthSplits(quantity: real, entry: real, price: real)
    ensures Worth(quantity, price) == Worth(quantity, entry) + Gain(entry, price, quantity)
  {
  }

  lemma PerformKeepsSound(limits: RiskLimits, decision: StrategyDecision, candle: Candle, s: State)
    requires Sound(limits, s.account) && candle.close > 0.0
    requires decision.orderQuantity.Some? ==> decision.orderQuantity.value > 0.0
    ensures var next := Perform(Decide(limits, decision, candle.close, s.account), candle, s);
            && Sound(limits, next.account)
            && ValueAtCost(next.account) - next.account.realized == ValueAtCost(s.account) - s.account.realized
  {
  }

  /**
   * Risk caps, solvency and conservation over all reachable states: cash never goes negative, an
   * entry price is set exactly while a position is open, the position never exceeds either limit,
   * and cash plus the position at cost is always the initial balance plus the realized PnL.
   */
  lemma {:induction false} EveryStateIsSound(run: Simulation, k: nat)
    requires Valid(run) && k <= |run.candles|
    ensures var a := StateAfter(run, k).account;
            && Sound(run.limits, a)
            && ValueAtCost(a) == run.initialBalance + a.realized
  {
    hide Decide;
    if k > 0 {
      EveryStateIsSound(run, k - 1);
      NextState(run, k - 1);
      PerformKeepsSound(run.limits, DecisionAt(run, k - 1), run.candles[k - 1], Observed(run, k - 1));
    }
  }

  /** At the end of a run, the empty history included, the reported return is realized plus unrealized PnL. */
  lemma ReturnIsRealizedPlusUnrealized(run: Simulation)
    requires Valid(run)
    ensures var r := Backtest(run);
            && r.metrics.totalReturn == r.account.realized + r.unrealizedPnl
            && r.finalBalance >= 0.0
            && r.openPosition == r.account.entry.Some?
  {
    hide Decide, Step;
    EveryStateIsSound(run, |run.candles|);
    var a := StateAfter(run, |run.candles|).account;
    if a.entry.Some? {
      WorthSplits(a.position, a.entry.value, LastPrice(run.candles));
      WorthPositive(a.position, LastPrice(run.candles));
    }
  }

  /** One candle on, an open position has lost less than the stop-loss percentage of its entry price. */
  lemma PerformClearsStop(limits: RiskLimits, decision: StrategyDecision, candle: Candle, s: State)
    requires Sound(limits, s.account) && candle.close > 0.0
    requires decision.orderQuantity.Some? ==> decision.orderQuantity.value > 0.0
    requires limits.stopLossPercent.Some? && limits.stopLossPercent.value > 0.0
    ensures var a := Perform(Decide(limits, decision, candle.close, s.account), candle, s).account;
            a.entry.Some? ==> 100.0 * (a.entry.value - candle.close) < limits.stopLossPercent.value * a.entry.value
  {
  }

  /**
   * The stop-loss holds at every candle end: a position still open has lost strictly less than the
   * stop-loss percentage of its entry price.
   */
  lemma StopLossHolds(run: Simulation, k: nat)
    requires Valid(run) && k < |run.candles|
    requires run.limits.stopLossPercent.Some? && run.limits.stopLossPercent.value > 0.0
    ensures var a := StateAfter(run, k + 1).account;
            a.position > 0.0 ==>
              && a.entry.Some?
              && 100.0 * (a.entry.value - run.candles[k].close) < run.limits.stopLossPercent.value * a.entry.value
  {
    hide Decide, Step;
    EveryStateIsSound(run, k);
    EveryStateIsSound(run, k + 1);
    NextState(run, k);
    PerformClearsStop(run.limits, DecisionAt(run, k), run.candles[k], Observed(run, k));
  }

  /**
   * Exits are never blocked in any run: an open position is closed by a candle exactly when the
   * strategy says sell there or the close has lost the stop-loss percentage of the entry price or
   * more, whatever the quantity limits are.
   */
  lemma ExitsAreNeverBlocked(run: Simulation, k: nat)
    requires Valid(run) && k < |run.candles|
    ensures var before, after := StateAfter(run, k).account, StateAfter(run, k + 1).account;
            var percent, close := run.limits.stopLossPercent, run.candles[k].close;
            before.position > 0.0 ==>
              && before.entry.Some?
              && (after.position == 0.0 <==>
                    || DecisionAt(run, k).action == Sell
                    || (percent.Some? && 100.0 * (before.entry.value - close) >= percent.value * before.entry.value))
  {
    EveryStateIsSound(run, k);
    NextState(run, k);
    DecisionTable(run.limits, DecisionAt(run, k), run.candles[k].close, StateAfter(run, k).account);
  }
}
