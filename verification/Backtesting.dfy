/**
 * The backtest simulator (app/engine/backtesting.py): `Run` is the engine's loop, and `StateAfter`
 * is the recursive meaning of its first k iterations that the loop is proved to compute.
 * `Decimal` is modelled by `real`; symbol, timeframe and source labels are left out.
 */
module Backtesting {
  import opened Optional
  import opened Risk
  import opened Strategies

  datatype Side = BuySide | SellSide

  datatype TradeReason = StopLossReason | StrategyReason(text: string)

  datatype Trade = Trade(
    side: Side,
    quantity: real,
    price: real,
    openedAt: int,
    cashBalance: real,
    positionQuantity: real,
    realizedPnl: real,
    reason: TradeReason
  )

  /** The running balances of a simulation. */
  datatype Account = Account(
    cash: real,
    position: real,
    entry: Option<real>,
    realized: real,
    closed: nat,
    winning: nat,
    losing: nat
  )

  datatype State = State(account: Account, trades: seq<Trade>, decisions: seq<StrategyDecision>)

  datatype Metrics = Metrics(
    totalReturn: real,
    totalReturnPercent: Option<real>,
    winRate: Option<real>,
    averageTradePnl: Option<real>,
    bestTradePnl: Option<real>,
    worstTradePnl: Option<real>,
    profitFactor: Option<real>
  )

  datatype BacktestResult = BacktestResult(
    initialBalance: real,
    account: Account,
    finalBalance: real,
    unrealizedPnl: real,
    numberOfTrades: nat,
    openPosition: bool,
    candlesProcessed: nat,
    metrics: Metrics,
    trades: seq<Trade>,
    decisions: seq<StrategyDecision>
  )

  // ----- one candle -----

  /** What `quantity` units are worth at `price`. */
  function Worth(quantity: real, price: real): real {
    quantity * price
  }

  /** The profit of closing `quantity` units, bought at `entry`, at `price`. */
  function Gain(entry: real, price: real, quantity: real): real {
    (price - entry) * quantity
  }

  /** What a candle makes of a strategy decision. */
  datatype Outcome = NoTrade | Bought(quantity: real, reason: TradeReason) | Sold(reason: TradeReason)

  function Decide(limits: RiskLimits, decision: StrategyDecision, close: real, a: Account): (outcome: Outcome)
    ensures outcome.Sold? ==> a.entry.Some?
  {
    var riskQuantity := if decision.action == Sell then Some(a.position) else decision.orderQuantity;
    var risk := Evaluate(limits, decision.action, riskQuantity, a.position, a.entry, Some(close));
    var reason := if risk.reason == StopLossTriggered then StopLossReason else StrategyReason(decision.reason);
    if !risk.allowed then
      NoTrade
    else if risk.action == Buy && a.position <= 0.0 then
      if decision.orderQuantity.None? || Worth(decision.orderQuantity.value, close) > a.cash then NoTrade
      else Bought(decision.orderQuantity.value, reason)
    else if risk.action == Sell && a.position > 0.0 && a.entry.Some? then
      Sold(reason)
    else
      NoTrade
  }

  function AfterBuy(a: Account, quantity: real, price: real): Account {
    a.(cash := a.cash - Worth(quantity, price), position := quantity, entry := Some(price))
  }

  function AfterSell(a: Account, price: real): Account
    requires a.entry.Some?
  {
    var pnl := Gain(a.entry.value, price, a.position);
    Account(a.cash + Worth(a.position, price), 0.0, None, a.realized + pnl, a.closed + 1,
            if pnl > 0.0 then a.winning + 1 else a.winning,
            if pnl < 0.0 then a.losing + 1 else a.losing)
  }

  function Perform(outcome: Outcome, candle: Candle, s: State): State
    requires outcome.Sold? ==> s.account.entry.Some?
  {
    match outcome
    case NoTrade => s
    case Bought(quantity, reason) =>
      var a := AfterBuy(s.account, quantity, candle.close);
      s.(account := a,
         trades := s.trades + [Trade(BuySide, quantity, candle.close, candle.closeTime, a.cash, quantity, 0.0, reason)])
    case Sold(reason) =>
      var a := AfterSell(s.account, candle.close);
      var pnl := Gain(s.account.entry.value, candle.close, s.account.position);
      s.(account := a,
         trades := s.trades + [Trade(SellSide, s.account.position, candle.close, candle.closeTime, a.cash, 0.0, pnl,
                                     reason)])
  }

  function Step(limits: RiskLimits, strategy: Strategy, visible: seq<Candle>, s: State): State
    requires visible != []
  {
    var decision := strategy(visible, s.account.position);
    var candle := visible[|visible| - 1];
    Perform(Decide(limits, decision, candle.close, s.account), candle, s.(decisions := s.decisions + [decision]))
  }

  // ----- a whole run -----

  /** Everything a run depends on. */
  datatype Simulation = Simulation(
    limits: RiskLimits,
    strategy: Strategy,
    initialBalance: real,
    candles: seq<Candle>
  )

  /** Stored closes and order quantities are positive, and the opening balance is not negative. */
  ghost predicate Valid(run: Simulation) {
    run.initialBalance >= 0.0 && PositiveCloses(run.candles) && PositiveOrders(run.strategy)
  }

  function Opening(initialBalance: real): Account {
    Account(initialBalance, 0.0, None, 0.0, 0, 0, 0)
  }

  /** The state of the simulation after its first `k` candles. */
  function StateAfter(run: Simulation, k: nat): State
    requires k <= |run.candles|
  {
    if k == 0 then State(Opening(run.initialBalance), [], [])
    else Step(run.limits, run.strategy, run.candles[..k], StateAfter(run, k - 1))
  }

  /** The strategy's decision at candle `k`, which sees that candle and the ones before it. */
  function DecisionAt(run: Simulation, k: nat): StrategyDecision
    requires k < |run.candles|
  {
    run.strategy(run.candles[..k + 1], StateAfter(run, k).account.position)
  }

  /** What candle `k` makes of that decision. */
  function OutcomeAt(run: Simulation, k: nat): (outcome: Outcome)
    requires k < |run.candles|
    ensures outcome.Sold? ==> StateAfter(run, k).account.entry.Some?
  {
    Decide(run.limits, DecisionAt(run, k), run.candles[k].close, StateAfter(run, k).account)
  }

  /** The state in which candle `k` is traded: its decision is logged, nothing else has changed. */
  function Observed(run: Simulation, k: nat): State
    requires k < |run.candles|
  {
    var s := StateAfter(run, k);
    s.(decisions := s.decisions + [DecisionAt(run, k)])
  }

  lemma NextState(run: Simulation, k: nat)
    requires k < |run.candles|
    ensures StateAfter(run, k + 1) == Perform(OutcomeAt(run, k), run.candles[k], Observed(run, k))
  {
    hide Decide, Perform;
    assert run.candles[..k + 1][k] == run.candles[k];
  }

  function LastPrice(candles: seq<Candle>): real {
    if candles == [] then 0.0 else candles[|candles| - 1].close
  }

  function Report(run: Simulation, s: State): BacktestResult {
    var a := s.account;
    var lastPrice := LastPrice(run.candles);
    var unrealized := if a.position > 0.0 && a.entry.Some? then Gain(a.entry.value, lastPrice, a.position) else 0.0;
    var finalBalance := a.cash + Worth(a.position, lastPrice);
    BacktestResult(run.initialBalance, a, finalBalance, unrealized, |s.trades|, a.position > 0.0, |run.candles|,
                   PerformanceMetrics(run.initialBalance, finalBalance, a.realized, a.closed, s.trades),
                   s.trades, s.decisions)
  }

  /** What a backtest reports; computed by `Run`. */
  function Backtest(run: Simulation): BacktestResult {
    Report(run, StateAfter(run, |run.candles|))
  }

  /**
   * Every run is valued at its last close, at zero without candles: the final balance is the cash plus
   * the position at that price, and the unrealized PnL what the open position has gained by then.
   */
  lemma ReportValuesAtLastClose(run: Simulation)
    ensures var r, n := Backtest(run), |run.candles|;
            var last := if n == 0 then 0.0 else run.candles[n - 1].close;
            && r.initialBalance == run.initialBalance
            && State(r.account, r.trades, r.decisions) == StateAfter(run, n)
            && r.finalBalance == r.account.cash + r.account.position * last
            && (r.openPosition <==> r.account.position > 0.0)
            && r.unrealizedPnl == (if r.openPosition && r.account.entry.Some?
                                   then (last - r.account.entry.value) * r.account.position else 0.0)
            && r.metrics.totalReturn == r.finalBalance - r.initialBalance
  {
    hide StateAfter;
  }

  /** The engine's loop over the candle history. */
  method Run(limits: RiskLimits, strategy: Strategy, initialBalance: real, candles: seq<Candle>)
    returns (result: BacktestResult)
    ensures result == Backtest(Simulation(limits, strategy, initialBalance, candles))
    ensures candles != [] ==>
              result.finalBalance == result.account.cash + result.account.position * candles[|candles| - 1].close
    ensures candles == [] ==> result.finalBalance == result.account.cash == initialBalance
  {
    hide Worth, Gain, Evaluate, PerformanceMetrics, Step;
    ghost var run := Simulation(limits, strategy, initialBalance, candles);
    var cash, position, entry: Option<real> := initialBalance, 0.0, None;
    var realized := 0.0;
    var closed: nat, winning: nat, losing: nat := 0, 0, 0;
    var trades: seq<Trade>, decisions: seq<StrategyDecision> := [], [];

    for index := 0 to |candles|
      invariant State(Account(cash, position, entry, realized, closed, winning, losing), trades, decisions)
             == StateAfter(run, index)
    {
      var candle := candles[index];
      var visible := candles[..index + 1];
      NextState(run, index);
      var decision := strategy(visible, position);
      decisions := decisions + [decision];

      var riskQuantity := if decision.action == Sell then Some(position) else decision.orderQuantity;
      var risk := Evaluate(limits, decision.action, riskQuantity, position, entry, Some(candle.close));
      if !risk.allowed {
        continue;
      }

      var reason := if risk.reason == StopLossTriggered then StopLossReason else StrategyReason(decision.reason);
      if risk.action == Buy && position <= 0.0 {
        if decision.orderQuantity.None? {
          continue;
        }
        var quantity := decision.orderQuantity.value;
        var cost := Worth(quantity, candle.close);
        if cost > cash {
          continue;
        }
        cash := cash - cost;
        position := quantity;
        entry := Some(candle.close);
        trades := trades + [Trade(BuySide, quantity, candle.close, candle.closeTime, cash, position, 0.0, reason)];
        continue;
      }

      if risk.action == Sell && position > 0.0 && entry.Some? {
        var proceeds := Worth(position, candle.close);
        var tradePnl := Gain(entry.value, candle.close, position);
        cash := cash + proceeds;
        realized := realized + tradePnl;
        closed := closed + 1;
        if tradePnl > 0.0 {
          winning := winning + 1;
        } else if tradePnl < 0.0 {
          losing := losing + 1;
        }
        trades := trades + [Trade(SellSide, position, candle.close, candle.closeTime, cash, 0.0, tradePnl, reason)];
        position := 0.0;
        entry := None;
      }
    }

    ReportValuesAtLastClose(run);
    var lastPrice := if candles == [] then 0.0 else candles[|candles| - 1].close;
    var unrealized := 0.0;
    if position > 0.0 && entry.Some? {
      unrealized := Gain(entry.value, lastPrice, position);
    }
    var finalBalance := cash + Worth(position, lastPrice);
    var metrics := PerformanceMetrics(initialBalance, finalBalance, realized, closed, trades);
    result := BacktestResult(initialBalance, Account(cash, position, entry, realized, closed, winning, losing),
                             finalBalance, unrealized, |trades|, position > 0.0, |candles|, metrics, trades, decisions);
  }

  // ----- performance metrics -----

  function Sum(values: seq<real>): real {
    if values == [] then 0.0 else Sum(values[..|values| - 1]) + values[|values| - 1]
  }

  function Max(values: seq<real>): real
    requires values != []
  {
    var last := values[|values| - 1];
    if |values| == 1 then last
    else var rest := Max(values[..|values| - 1]); if rest < last then last else rest
  }

  function Min(values: seq<real>): real
    requires values != []
  {
    var last := values[|values| - 1];
    if |values| == 1 then last
    else var rest := Min(values[..|values| - 1]); if last < rest then last else rest
  }

  function Abs(x: real): real {
    if x < 0.0 then -x else x
  }

  /** The realized PnL of every sell in a log, in order. */
  function SellPnls(trades: seq<Trade>): seq<real> {
    if trades == [] then []
    else
      var last := trades[|trades| - 1];
      SellPnls(trades[..|trades| - 1]) + if last.side == SellSide then [last.realizedPnl] else []
  }

  function Winners(pnls: seq<real>): seq<real> {
    if pnls == [] then []
    else
      var last := pnls[|pnls| - 1];
      Winners(pnls[..|pnls| - 1]) + if last > 0.0 then [last] else []
  }

  function Losers(pnls: seq<real>): seq<real> {
    if pnls == [] then []
    else
      var last := pnls[|pnls| - 1];
      Losers(pnls[..|pnls| - 1]) + if last < 0.0 then [last] else []
  }

  function ProfitFactor(grossWin: real, grossLoss: real): Option<real> {
    if grossLoss > 0.0 && grossWin > 0.0 then Some(grossWin / grossLoss)
    else if grossLoss > 0.0 then Some(0.0)
    else if grossWin == 0.0 then Some(0.0)
    else None
  }

  function PerformanceMetrics(initialBalance: real, finalBalance: real, realized: real, closed: nat, trades: seq<Trade>)
    : Metrics
  {
    var totalReturn := finalBalance - initialBalance;
    var percent := if initialBalance > 0.0 then Some(totalReturn / initialBalance * 100.0) else None;
    var pnls := SellPnls(trades);
    if closed == 0 || pnls == [] then
      Metrics(totalReturn, percent, None, None, None, None, None)
    else
      Metrics(totalReturn, percent,
              Some((|Winners(pnls)| as real) / (closed as real) * 100.0),
              Some(realized / (closed as real)),
              Some(Max(pnls)),
              Some(Min(pnls)),
              ProfitFactor(Sum(Winners(pnls)), Abs(Sum(Losers(pnls)))))
  }
}
