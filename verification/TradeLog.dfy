/**
 * The trade log is a complete record of a run: replaying it reproduces every balance, its shape is
 * fixed by the counters, each entry stems from one candle, and the reported metrics agree with it.
 */
module TradeLog {
  import opened Optional
  import opened Risk
  import opened Strategies
  import opened Backtesting
  import opened Soundness

  // ----- replay -----

  /** Book one logged trade, using only its side, quantity and price, in plain products. */
  function Book(a: Account, t: Trade): Account {
    match t.side
    case BuySide =>
      Account(a.cash - t.quantity * t.price, a.position + t.quantity, Some(t.price),
              a.realized, a.closed, a.winning, a.losing)
    case SellSide =>
      var pnl := if a.entry.Some? then (t.price - a.entry.value) * t.quantity else 0.0;
      Account(a.cash + t.quantity * t.price, a.position - t.quantity, None,
              a.realized + pnl, a.closed + 1,
              a.winning + (if pnl > 0.0 then 1 else 0), a.losing + (if pnl < 0.0 then 1 else 0))
  }

  /** The account that the first `n` entries of a log lead to from an opening balance. */
  function ReplayTo(initialBalance: real, trades: seq<Trade>, n: nat): Account
    requires n <= |trades|
  {
    if n == 0 then Opening(initialBalance) else Book(ReplayTo(initialBalance, trades, n - 1), trades[n - 1])
  }

  /** The account that a whole log leads to. */
  function Replay(initialBalance: real, trades: seq<Trade>): Account {
    ReplayTo(initialBalance, trades, |trades|)
  }

  /** The balances written into entry `n` are those that replaying the log up to it gives. */
  ghost predicate RecordsReplay(initialBalance: real, trades: seq<Trade>, n: nat)
    requires n < |trades|
  {
    var before, after := ReplayTo(initialBalance, trades, n), ReplayTo(initialBalance, trades, n + 1);
    && trades[n].cashBalance == after.cash
    && trades[n].positionQuantity == after.position
    && trades[n].realizedPnl == after.realized - before.realized
  }

  /** Buys and sells alternate, and each sell closes the quantity of the buy before it. */
  ghost predicate Alternates(trades: seq<Trade>) {
    && (forall n :: 0 <= n < |trades| ==> (trades[n].side == BuySide <==> n % 2 == 0))
    && (forall n :: 0 < n < |trades| && trades[n].side == SellSide ==> trades[n].quantity == trades[n - 1].quantity)
  }

  /** The open position is the one that the last entry of the log bought. */
  ghost predicate OpenPositionIsLastBuy(a: Account, trades: seq<Trade>) {
    a.position > 0.0 ==>
      && trades != []
      && var last := trades[|trades| - 1];
         last.side == BuySide && last.quantity == a.position && a.entry == Some(last.price)
  }

  ghost predicate Logged(initialBalance: real, s: State) {
    && Replay(initialBalance, s.trades) == s.account
    && (forall n :: 0 <= n < |s.trades| ==> RecordsReplay(initialBalance, s.trades, n))
    && Alternates(s.trades)
    && |s.trades| == 2 * s.account.closed + (if s.account.position > 0.0 then 1 else 0)
    && OpenPositionIsLastBuy(s.account, s.trades)
  }

  lemma {:induction false} ReplayIgnoresLater(initialBalance: real, trades: seq<Trade>, t: Trade, n: nat)
    requires n <= |trades|
    ensures ReplayTo(initialBalance, trades + [t], n) == ReplayTo(initialBalance, trades, n)
  {
    hide Book;
    if n > 0 {
      ReplayIgnoresLater(initialBalance, trades, t, n - 1);
    }
  }

  lemma RecordsSurviveAppend(initialBalance: real, trades: seq<Trade>, t: Trade)
    requires forall n :: 0 <= n < |trades| ==> RecordsReplay(initialBalance, trades, n)
    ensures Replay(initialBalance, trades + [t]) == Book(Replay(initialBalance, trades), t)
    ensures forall n :: 0 <= n < |trades| ==> RecordsReplay(initialBalance, trades + [t], n)
    ensures var before, after := Replay(initialBalance, trades), Book(Replay(initialBalance, trades), t);
            RecordsReplay(initialBalance, trades + [t], |trades|) <==>
            t.cashBalance == after.cash && t.positionQuantity == after.position
            && t.realizedPnl == after.realized - before.realized
  {
    hide Book;
    ReplayIgnoresLater(initialBalance, trades, t, |trades|);
    forall n | 0 <= n < |trades| ensures RecordsReplay(initialBalance, trades + [t], n) {
      assert RecordsReplay(initialBalance, trades, n);
      ReplayIgnoresLater(initialBalance, trades, t, n);
      ReplayIgnoresLater(initialBalance, trades, t, n + 1);
    }
  }

  lemma AlternatesSurvivesAppend(trades: seq<Trade>, t: Trade)
    requires Alternates(trades)
    requires t.side == BuySide <==> |trades| % 2 == 0
    requires t.side == SellSide ==> |trades| > 0 && t.quantity == trades[|trades| - 1].quantity
    ensures Alternates(trades + [t])
  {
  }

  lemma BuyKeepsLog(initialBalance: real, s: State, quantity: real, reason: TradeReason, candle: Candle)
    requires Logged(initialBalance, s) && s.account.position == 0.0 && quantity > 0.0
    ensures Logged(initialBalance, Perform(Bought(quantity, reason), candle, s))
  {
    hide Replay, RecordsReplay, Alternates;
    var t := Perform(Bought(quantity, reason), candle, s).trades[|s.trades|];
    RecordsSurviveAppend(initialBalance, s.trades, t);
    AlternatesSurvivesAppend(s.trades, t);
  }

  lemma SellKeepsLog(initialBalance: real, s: State, reason: TradeReason, candle: Candle)
    requires Logged(initialBalance, s) && s.account.position > 0.0
    ensures Logged(initialBalance, Perform(Sold(reason), candle, s))
  {
    hide Replay, RecordsReplay, Alternates;
    var t := Perform(Sold(reason), candle, s).trades[|s.trades|];
    RecordsSurviveAppend(initialBalance, s.trades, t);
    AlternatesSurvivesAppend(s.trades, t);
  }

  lemma PerformKeepsLog(initialBalance: real, limits: RiskLimits, decision: StrategyDecision, candle: Candle, s: State)
    requires Sound(limits, s.account) && Logged(initialBalance, s)
    requires decision.orderQuantity.Some? ==> decision.orderQuantity.value > 0.0
    ensures Logged(initialBalance, Perform(Decide(limits, decision, candle.close, s.account), candle, s))
  {
    DecisionTable(limits, decision, candle.close, s.account);
    hide Decide, Logged;
    match Decide(limits, decision, candle.close, s.account)
    case NoTrade =>
    case Bought(quantity, reason) => BuyKeepsLog(initialBalance, s, quantity, reason, candle);
    case Sold(reason) => SellKeepsLog(initialBalance, s, reason, candle);
  }

  /**
   * Log replay: folding the trade list from the initial balance reproduces the balances recorded
   * in every entry and the final account, counters included; the log alternates, holds two entries
   * per closed trade plus one for an open position, and each sell closes the preceding buy.
   */
  lemma {:induction false} LogReplays(run: Simulation, k: nat)
    requires Valid(run) && k <= |run.candles|
    ensures Logged(run.initialBalance, StateAfter(run, k))
  {
    hide Decide, Perform;
    if k > 0 {
      LogReplays(run, k - 1);
      EveryStateIsSound(run, k - 1);
      NextState(run, k - 1);
      PerformKeepsLog(run.initialBalance, run.limits, DecisionAt(run, k - 1), run.candles[k - 1], Observed(run, k - 1));
    }
  }

  /**
   * The report matches its own log: replaying the trades gives the reported account, the number of
   * trades is two per closed trade plus one for an open position, and every candle was processed.
   */
  lemma ReportMatchesLog(run: Simulation)
    requires Valid(run)
    ensures var r := Backtest(run);
            && Replay(r.initialBalance, r.trades) == r.account
            && Alternates(r.trades)
            && r.numberOfTrades == |r.trades| == 2 * r.account.closed + (if r.openPosition then 1 else 0)
            && r.candlesProcessed == |run.candles|
  {
    hide StateAfter, Replay, RecordsReplay, Alternates, PerformanceMetrics;
    LogReplays(run, |run.candles|);
  }

  // ----- where trades come from -----

  /** The candles, in order, at which a run of the first `k` candles traded. */
  ghost function TradingCandles(run: Simulation, k: nat): seq<nat>
    requires k <= |run.candles|
  {
    if k == 0 then []
    else TradingCandles(run, k - 1) + if OutcomeAt(run, k - 1).NoTrade? then [] else [k - 1]
  }

  /** Entry `t` is what candle `i` traded, at its close, when it closed, for the reason in force. */
  ghost predicate StemsFrom(run: Simulation, t: Trade, i: nat)
    requires i < |run.candles|
  {
    var a := StateAfter(run, i).account;
    && t.price == run.candles[i].close
    && t.openedAt == run.candles[i].closeTime
    && Some(t.quantity) == (if t.side == BuySide then DecisionAt(run, i).orderQuantity else Some(a.position))
    && t.reason == (if Stopped(run.limits, a, run.candles[i].close) then StopLossReason
                    else StrategyReason(DecisionAt(run, i).reason))
    && (t.side == BuySide ==> DecisionAt(run, i).action == Buy)
    && (t.side == SellSide && t.reason != StopLossReason ==> DecisionAt(run, i).action == Sell)
  }

  lemma CandleTradesOnce(run: Simulation, k: nat)
    requires Valid(run) && k < |run.candles|
    ensures var before, after := StateAfter(run, k).trades, StateAfter(run, k + 1).trades;
            if OutcomeAt(run, k).NoTrade? then after == before
            else |after| == |before| + 1 && after[..|before|] == before && StemsFrom(run, after[|before|], k)
  {
    EveryStateIsSound(run, k);
    DecisionTable(run.limits, DecisionAt(run, k), run.candles[k].close, StateAfter(run, k).account);
    NextState(run, k);
    hide Decide, Step, Worth, Gain;
  }

  /**
   * Provenance: the log has one entry per trading candle, in candle order and never two for one
   * candle, and each entry carries that candle's close, time and reason.
   */
  lemma {:induction false} TradesFollowCandles(run: Simulation, k: nat)
    requires Valid(run) && k <= |run.candles|
    ensures var at, trades := TradingCandles(run, k), StateAfter(run, k).trades;
            && |at| == |trades|
            && (forall n :: 0 <= n < |at| ==> at[n] < k && StemsFrom(run, trades[n], at[n]))
            && (forall m, n :: 0 <= m < n < |at| ==> at[m] < at[n])
  {
    hide Decide, Perform, Step, StemsFrom;
    if k > 0 {
      TradesFollowCandles(run, k - 1);
      CandleTradesOnce(run, k - 1);
      var before, after := StateAfter(run, k - 1).trades, StateAfter(run, k).trades;
      assert forall n :: 0 <= n < |before| ==> after[n] == before[n];
    }
  }
}
