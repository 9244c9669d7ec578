/**
 * How much a stop-loss can lose: if no close gaps down by more than a fraction g of the close
 * before it, a stop at p percent bounds every loss, and so the total, by the entry costs.
 */
module GapLoss {
  import opened Optional
  import opened Quotients
  import opened Strategies
  import opened Backtesting
  import opened Soundness
  import opened TradeLog

  /** No close is lower than (1 - g) times the close before it. */
  predicate GapsBounded(candles: seq<Candle>, g: real) {
    forall i :: 0 < i < |candles| ==> candles[i].close >= (1.0 - g) * candles[i - 1].close
  }

  /** The part of the entry cost that is at risk: 1 - (1 - g)(1 - p/100). */
  function LossFraction(g: real, percent: real): real {
    1.0 - (1.0 - g) * (1.0 - percent / 100.0)
  }

  ghost predicate Guarded(run: Simulation, g: real, percent: real) {
    && Valid(run)
    && run.limits.stopLossPercent == Some(percent)
    && 0.0 < percent < 100.0
    && 0.0 <= g < 1.0
    && GapsBounded(run.candles, g)
  }

  /** What the round trip that ends at entry `n` of a log paid to enter. */
  function EntryCost(trades: seq<Trade>, n: nat): real
    requires 0 < n < |trades|
  {
    Worth(trades[n - 1].quantity, trades[n - 1].price)
  }

  /** The entry costs of all closed round trips of a log. */
  function ClosedCosts(trades: seq<Trade>): real {
    if trades == [] then 0.0
    else
      var n := |trades| - 1;
      ClosedCosts(trades[..n]) + if n > 0 && trades[n].side == SellSide then EntryCost(trades, n) else 0.0
  }

  /** The part of a cost that may be lost. */
  function AtRisk(fraction: real, cost: real): real {
    fraction * cost
  }

  lemma RisksAdd(fraction: real, x: real, y: real)
    ensures AtRisk(fraction, x + y) == AtRisk(fraction, x) + AtRisk(fraction, y)
  {
  }

  ghost predicate LossBounded(fraction: real, a: Account, trades: seq<Trade>) {
    && (forall n :: 0 < n < |trades| && trades[n].side == SellSide ==>
          trades[n].realizedPnl > -AtRisk(fraction, EntryCost(trades, n)))
    && a.realized >= -AtRisk(fraction, ClosedCosts(trades))
    && (a.closed > 0 ==> a.realized > -AtRisk(fraction, ClosedCosts(trades)))
  }

  /** One gap below the stop still leaves a price above the fraction that is not at risk. */
  lemma GapAboveFloor(entry: real, previous: real, close: real, g: real, percent: real)
    requires 0.0 <= g < 1.0
    requires 100.0 * (entry - previous) < percent * entry && close >= (1.0 - g) * previous
    ensures close > (1.0 - LossFraction(g, percent)) * entry
  {
    var stop := (1.0 - percent / 100.0) * entry;
    PositiveProduct(1.0 - g, previous - stop);
    assert (1.0 - g) * previous > (1.0 - g) * stop == (1.0 - LossFraction(g, percent)) * entry;
  }

  lemma GainAboveFloor(entry: real, close: real, quantity: real, fraction: real)
    requires quantity > 0.0 && close > (1.0 - fraction) * entry
    ensures Gain(entry, close, quantity) > -AtRisk(fraction, Worth(quantity, entry))
  {
  }

  lemma ExitAboveFloor(run: Simulation, g: real, percent: real, k: nat)
    requires Guarded(run, g, percent) && k < |run.candles|
    ensures var a := StateAfter(run, k).account;
            a.position > 0.0 ==>
              && a.entry.Some?
              && Gain(a.entry.value, run.candles[k].close, a.position)
                 > -AtRisk(LossFraction(g, percent), Worth(a.position, a.entry.value))
  {
    hide Decide, Step, Gain, Worth, LossFraction;
    var a := StateAfter(run, k).account;
    if a.position > 0.0 {
      StopLossHolds(run, k - 1);
      GapAboveFloor(a.entry.value, run.candles[k - 1].close, run.candles[k].close, g, percent);
      GainAboveFloor(a.entry.value, run.candles[k].close, a.position, LossFraction(g, percent));
    }
  }

  lemma SellKeepsLossBound(fraction: real, s: State, reason: TradeReason, candle: Candle)
    requires LossBounded(fraction, s.account, s.trades) && OpenPositionIsLastBuy(s.account, s.trades)
    requires s.account.position > 0.0 && s.account.entry.Some?
    requires Gain(s.account.entry.value, candle.close, s.account.position)
             > -AtRisk(fraction, Worth(s.account.position, s.account.entry.value))
    ensures var next := Perform(Sold(reason), candle, s);
            LossBounded(fraction, next.account, next.trades)
  {
    hide Gain, Worth, AtRisk;
    var next, n := Perform(Sold(reason), candle, s), |s.trades|;
    assert next.trades[..n] == s.trades;
    var cost := EntryCost(next.trades, n);
    RisksAdd(fraction, ClosedCosts(s.trades), cost);
    assert forall m :: 0 < m < n ==> EntryCost(next.trades, m) == EntryCost(s.trades, m);
  }

  lemma BuyKeepsLossBound(fraction: real, s: State, quantity: real, reason: TradeReason, candle: Candle)
    requires LossBounded(fraction, s.account, s.trades)
    ensures var next := Perform(Bought(quantity, reason), candle, s);
            LossBounded(fraction, next.account, next.trades)
  {
  }

  /**
   * Gap-bounded loss: with a stop-loss of p percent and closes that never gap down by more than g,
   * every sell's realized PnL is above minus the loss fraction of its entry cost, and the total
   * realized PnL is bounded by the sum of those amounts, strictly once a trade is closed.
   */
  lemma {:induction false} LossesAreGapBounded(run: Simulation, g: real, percent: real, k: nat)
    requires Guarded(run, g, percent) && k <= |run.candles|
    ensures LossBounded(LossFraction(g, percent), StateAfter(run, k).account, StateAfter(run, k).trades)
  {
    hide Decide, Step, Gain, Worth, LossFraction, Replay, RecordsReplay, Alternates;
    var fraction := LossFraction(g, percent);
    if k == 0 {
      assert ClosedCosts([]) == 0.0;
    } else {
      LossesAreGapBounded(run, g, percent, k - 1);
      hide LossBounded, ClosedCosts, AtRisk;
      var s, candle := Observed(run, k - 1), run.candles[k - 1];
      EveryStateIsSound(run, k - 1);
      LogReplays(run, k - 1);
      NextState(run, k - 1);
      DecisionTable(run.limits, DecisionAt(run, k - 1), candle.close, s.account);
      match OutcomeAt(run, k - 1)
      case NoTrade =>
      case Bought(quantity, reason) => BuyKeepsLossBound(fraction, s, quantity, reason, candle);
      case Sold(reason) =>
        ExitAboveFloor(run, g, percent, k - 1);
        SellKeepsLossBound(fraction, s, reason, candle);
    }
  }
}
