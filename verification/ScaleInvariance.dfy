/**
 * Scale invariance: multiplying the initial balance, the order quantities and both quantity limits
 * by one positive factor multiplies every amount of a run by it and changes nothing else.
 */
module ScaleInvariance {
  import opened Optional
  import opened Risk
  import opened Strategies
  import opened Backtesting

  function Scale(k: real, x: real): real {
    k * x
  }

  function ScaleOption(k: real, x: Option<real>): Option<real> {
    if x.None? then None else Some(Scale(k, x.value))
  }

  function ScaleLimits(k: real, limits: RiskLimits): RiskLimits {
    RiskLimits(ScaleOption(k, limits.maxTradeQuantity), ScaleOption(k, limits.maxPositionQuantity),
               limits.stopLossPercent)
  }

  function ScaleDecision(k: real, decision: StrategyDecision): StrategyDecision {
    decision.(orderQuantity := ScaleOption(k, decision.orderQuantity))
  }

  function ScaleAccount(k: real, a: Account): Account {
    a.(cash := Scale(k, a.cash), position := Scale(k, a.position), realized := Scale(k, a.realized))
  }

  function ScaleTrade(k: real, t: Trade): Trade {
    t.(quantity := Scale(k, t.quantity), cashBalance := Scale(k, t.cashBalance),
       positionQuantity := Scale(k, t.positionQuantity), realizedPnl := Scale(k, t.realizedPnl))
  }

  function ScaleOutcome(k: real, outcome: Outcome): Outcome {
    if outcome.Bought? then outcome.(quantity := Scale(k, outcome.quantity)) else outcome
  }

  function MapSeq<A, B>(f: A -> B, s: seq<A>): (r: seq<B>)
    ensures |r| == |s| && forall i :: 0 <= i < |s| ==> r[i] == f(s[i])
  {
    seq(|s|, i requires 0 <= i < |s| => f(s[i]))
  }

  function ScaleTrades(k: real, trades: seq<Trade>): seq<Trade> {
    MapSeq(t => ScaleTrade(k, t), trades)
  }

  function ScaleAll(k: real, values: seq<real>): seq<real> {
    MapSeq(x => Scale(k, x), values)
  }

  function ScaleState(k: real, s: State): State {
    State(ScaleAccount(k, s.account), ScaleTrades(k, s.trades), MapSeq(d => ScaleDecision(k, d), s.decisions))
  }

  function ScaleMetrics(k: real, m: Metrics): Metrics {
    m.(totalReturn := Scale(k, m.totalReturn),
       averageTradePnl := ScaleOption(k, m.averageTradePnl),
       bestTradePnl := ScaleOption(k, m.bestTradePnl),
       worstTradePnl := ScaleOption(k, m.worstTradePnl))
  }

  function ScaleResult(k: real, r: BacktestResult): BacktestResult {
    var s := ScaleState(k, State(r.account, r.trades, r.decisions));
    r.(initialBalance := Scale(k, r.initialBalance), account := s.account, finalBalance := Scale(k, r.finalBalance),
       unrealizedPnl := Scale(k, r.unrealizedPnl), metrics := ScaleMetrics(k, r.metrics),
       trades := s.trades, decisions := s.decisions)
  }

  /** `other` asks for `k` times the quantity when it sees `k` times the position. */
  ghost predicate ScalesTo(strategy: Strategy, k: real, other: Strategy) {
    forall visible: seq<Candle>, position: real {:trigger strategy(visible, position)} ::
      other(visible, Scale(k, position)) == ScaleDecision(k, strategy(visible, position))
  }

  /** `big` is `run` with balance, limits and order quantities multiplied by `k`. */
  ghost predicate ScaledRun(run: Simulation, k: real, big: Simulation) {
    && big.limits == ScaleLimits(k, run.limits)
    && ScalesTo(run.strategy, k, big.strategy)
    && big.initialBalance == Scale(k, run.initialBalance)
    && big.candles == run.candles
  }

  // ----- one candle -----

  lemma ScaleKeepsOrder(k: real, x: real, y: real)
    requires k > 0.0
    ensures Scale(k, x) <= Scale(k, y) <==> x <= y
    ensures Scale(k, 0.0) == 0.0
  {
  }

  lemma ScaleIsLinear(k: real, x: real, y: real)
    ensures Scale(k, x) + Scale(k, y) == Scale(k, x + y)
    ensures Scale(k, x) - Scale(k, y) == Scale(k, x - y)
  {
  }

  lemma WorthScales(k: real, quantity: real, price: real)
    ensures Worth(Scale(k, quantity), price) == Scale(k, Worth(quantity, price))
  {
  }

  lemma GainScales(k: real, entry: real, price: real, quantity: real)
    ensures Gain(entry, price, Scale(k, quantity)) == Scale(k, Gain(entry, price, quantity))
  {
  }

  lemma StopLossScales(k: real, limits: RiskLimits, position: real, entry: Option<real>, price: Option<real>)
    requires k > 0.0
    ensures EvaluateStopLoss(ScaleLimits(k, limits), Scale(k, position), entry, price)
         == EvaluateStopLoss(limits, position, entry, price)
  {
    hide Scale, StopPrice;
    ScaleKeepsOrder(k, position, 0.0);
  }

  lemma TradeLimitsScale(k: real, limits: RiskLimits, action: Action, quantity: Option<real>, position: real,
                         allowed: RiskDecision)
    requires k > 0.0
    ensures EvaluateTradeLimits(ScaleLimits(k, limits), action, ScaleOption(k, quantity), Scale(k, position), allowed)
         == EvaluateTradeLimits(limits, action, quantity, position, allowed)
  {
    hide Scale;
    if quantity.Some? {
      ScaleIsLinear(k, position, quantity.value);
      if limits.maxTradeQuantity.Some? {
        ScaleKeepsOrder(k, quantity.value, limits.maxTradeQuantity.value);
      }
      if limits.maxPositionQuantity.Some? {
        ScaleKeepsOrder(k, position + quantity.value, limits.maxPositionQuantity.value);
      }
    }
  }

  lemma EvaluateScales(k: real, limits: RiskLimits, action: Action, quantity: Option<real>, position: real,
                       entry: Option<real>, price: Option<real>)
    requires k > 0.0
    ensures Evaluate(ScaleLimits(k, limits), action, ScaleOption(k, quantity), Scale(k, position), entry, price)
         == Evaluate(limits, action, quantity, position, entry, price)
  {
    hide Scale, EvaluateStopLoss, EvaluateTradeLimits, ScaleLimits;
    StopLossScales(k, limits, position, entry, price);
    var stopLoss := EvaluateStopLoss(limits, position, entry, price);
    if stopLoss.Some? {
      TradeLimitsScale(k, limits, stopLoss.value.action, Some(position), position, stopLoss.value);
    } else {
      TradeLimitsScale(k, limits, action, quantity, position, RiskDecision(true, action, Allowed));
    }
  }

  lemma DecideScales(k: real, limits: RiskLimits, decision: StrategyDecision, close: real, a: Account)
    requires k > 0.0
    ensures Decide(ScaleLimits(k, limits), ScaleDecision(k, decision), close, ScaleAccount(k, a))
         == ScaleOutcome(k, Decide(limits, decision, close, a))
  {
    hide Evaluate, Scale, Worth;
    EvaluateScales(k, limits, decision.action,
                   if decision.action == Sell then Some(a.position) else decision.orderQuantity,
                   a.position, a.entry, Some(close));
    ScaleKeepsOrder(k, a.position, 0.0);
    if decision.orderQuantity.Some? {
      WorthScales(k, decision.orderQuantity.value, close);
      ScaleKeepsOrder(k, Worth(decision.orderQuantity.value, close), a.cash);
    }
  }

  lemma PerformScales(k: real, outcome: Outcome, candle: Candle, s: State)
    requires k > 0.0 && (outcome.Sold? ==> s.account.entry.Some?)
    ensures Perform(ScaleOutcome(k, outcome), candle, ScaleState(k, s)) == ScaleState(k, Perform(outcome, candle, s))
  {
    hide Scale, Worth, Gain;
    var a := s.account;
    ScaleKeepsOrder(k, 0.0, 0.0);
    match outcome
    case NoTrade =>
    case Bought(quantity, reason) =>
      WorthScales(k, quantity, candle.close);
      ScaleIsLinear(k, a.cash, Worth(quantity, candle.close));
    case Sold(reason) =>
      var pnl := Gain(a.entry.value, candle.close, a.position);
      WorthScales(k, a.position, candle.close);
      ScaleIsLinear(k, a.cash, Worth(a.position, candle.close));
      GainScales(k, a.entry.value, candle.close, a.position);
      ScaleIsLinear(k, a.realized, pnl);
      ScaleKeepsOrder(k, pnl, 0.0);
      ScaleKeepsOrder(k, 0.0, pnl);
  }

  /** In scaled states candle `n` gets the scaled decision, and is traded in the scaled state. */
  lemma ObservedScales(run: Simulation, k: real, big: Simulation, n: nat)
    requires ScaledRun(run, k, big) && n < |run.candles|
    requires StateAfter(big, n) == ScaleState(k, StateAfter(run, n))
    ensures DecisionAt(big, n) == ScaleDecision(k, DecisionAt(run, n))
    ensures Observed(big, n) == ScaleState(k, Observed(run, n))
  {
    hide StateAfter, Scale, ScaleTrades, ScaleDecision;
  }

  /** So the scaled run makes the scaled outcome of the candle. */
  lemma OutcomeScales(run: Simulation, k: real, big: Simulation, n: nat)
    requires k > 0.0 && ScaledRun(run, k, big) && n < |run.candles|
    requires StateAfter(big, n) == ScaleState(k, StateAfter(run, n))
    ensures OutcomeAt(big, n) == ScaleOutcome(k, OutcomeAt(run, n))
  {
    ObservedScales(run, k, big, n);
    DecideScales(k, run.limits, DecisionAt(run, n), run.candles[n].close, StateAfter(run, n).account);
    hide StateAfter, Decide, DecisionAt, Scale, ScaleDecision, ScaleLimits, ScaleOutcome;
  }

  lemma {:induction false} StateScales(run: Simulation, k: real, big: Simulation, n: nat)
    requires k > 0.0 && ScaledRun(run, k, big) && n <= |run.candles|
    ensures StateAfter(big, n) == ScaleState(k, StateAfter(run, n))
  {
    if n == 0 {
      ScaleKeepsOrder(k, 0.0, 0.0);
    } else {
      hide *;
      StateScales(run, k, big, n - 1);
      ObservedScales(run, k, big, n - 1);
      OutcomeScales(run, k, big, n - 1);
      NextState(run, n - 1);
      NextState(big, n - 1);
      PerformScales(k, OutcomeAt(run, n - 1), run.candles[n - 1], Observed(run, n - 1));
    }
  }

  // ----- the report -----

  lemma {:induction false} PnlsScale(k: real, trades: seq<Trade>)
    ensures SellPnls(ScaleTrades(k, trades)) == ScaleAll(k, SellPnls(trades))
  {
    hide Scale;
    if trades != [] {
      var rest := trades[..|trades| - 1];
      PnlsScale(k, rest);
      assert ScaleTrades(k, trades)[..|rest|] == ScaleTrades(k, rest);
    }
  }

  lemma {:induction false} WinnersScale(k: real, pnls: seq<real>)
    requires k > 0.0
    ensures Winners(ScaleAll(k, pnls)) == ScaleAll(k, Winners(pnls))
    ensures Losers(ScaleAll(k, pnls)) == ScaleAll(k, Losers(pnls))
  {
    hide Scale;
    if pnls != [] {
      var rest, last := pnls[..|pnls| - 1], pnls[|pnls| - 1];
      WinnersScale(k, rest);
      assert ScaleAll(k, pnls)[..|rest|] == ScaleAll(k, rest);
      ScaleKeepsOrder(k, last, 0.0);
      ScaleKeepsOrder(k, 0.0, last);
    }
  }

  lemma {:induction false} SumScales(k: real, values: seq<real>)
    requires k > 0.0
    ensures Sum(ScaleAll(k, values)) == Scale(k, Sum(values))
  {
    hide Scale;
    ScaleKeepsOrder(k, 0.0, 0.0);
    if values != [] {
      var rest := values[..|values| - 1];
      SumScales(k, rest);
      assert ScaleAll(k, values)[..|rest|] == ScaleAll(k, rest);
      ScaleIsLinear(k, Sum(rest), values[|rest|]);
    }
  }

  lemma {:induction false} ExtremesScale(k: real, values: seq<real>)
    requires k > 0.0 && values != []
    ensures Max(ScaleAll(k, values)) == Scale(k, Max(values))
    ensures Min(ScaleAll(k, values)) == Scale(k, Min(values))
  {
    hide Scale;
    if |values| > 1 {
      var rest, last := values[..|values| - 1], values[|values| - 1];
      ExtremesScale(k, rest);
      assert ScaleAll(k, values)[..|rest|] == ScaleAll(k, rest);
      ScaleKeepsOrder(k, last, Max(rest));
      ScaleKeepsOrder(k, Min(rest), last);
    }
  }

  lemma RatioUnscaled(k: real, x: real, y: real)
    requires k > 0.0 && y > 0.0
    ensures Scale(k, y) > 0.0 && Scale(k, x) / Scale(k, y) == x / y
  {
  }

  lemma QuotientScales(k: real, x: real, y: real)
    requires y > 0.0
    ensures Scale(k, x) / y == Scale(k, x / y)
  {
  }

  lemma AbsScales(k: real, x: real)
    requires k > 0.0
    ensures Abs(Scale(k, x)) == Scale(k, Abs(x))
  {
  }

  lemma ProfitFactorUnscaled(k: real, win: real, loss: real)
    requires k > 0.0
    ensures ProfitFactor(Scale(k, win), Scale(k, loss)) == ProfitFactor(win, loss)
  {
    hide Scale;
    ScaleKeepsOrder(k, loss, 0.0);
    ScaleKeepsOrder(k, win, 0.0);
    ScaleKeepsOrder(k, 0.0, win);
    if loss > 0.0 {
      RatioUnscaled(k, win, loss);
    }
  }

  lemma MetricsScale(k: real, initialBalance: real, finalBalance: real, realized: real, closed: nat, trades: seq<Trade>)
    requires k > 0.0
    ensures PerformanceMetrics(Scale(k, initialBalance), Scale(k, finalBalance), Scale(k, realized), closed,
                               ScaleTrades(k, trades))
         == ScaleMetrics(k, PerformanceMetrics(initialBalance, finalBalance, realized, closed, trades))
  {
    hide Sum, Max, Min, Winners, Losers, SellPnls, ProfitFactor, Abs, ScaleTrades;
    var pnls := SellPnls(trades);
    ScaleIsLinear(k, finalBalance, initialBalance);
    ScaleKeepsOrder(k, initialBalance, 0.0);
    if initialBalance > 0.0 {
      RatioUnscaled(k, finalBalance - initialBalance, initialBalance);
    }
    PnlsScale(k, trades);
    if closed > 0 && pnls != [] {
      WinnersScale(k, pnls);
      SumScales(k, Winners(pnls));
      SumScales(k, Losers(pnls));
      ExtremesScale(k, pnls);
      QuotientScales(k, realized, closed as real);
      AbsScales(k, Sum(Losers(pnls)));
      ProfitFactorUnscaled(k, Sum(Winners(pnls)), Abs(Sum(Losers(pnls))));
    }
  }

  /**
   * Scale invariance for any strategy: the scaled run trades the same sides at the same prices and
   * times, its balances, quantities and PnLs are multiplied by `k`, and its return percentage, win
   * rate, profit factor and counters are those of the original run.
   */
  lemma BacktestScales(run: Simulation, k: real, big: Simulation)
    requires k > 0.0 && ScaledRun(run, k, big)
    ensures Backtest(big) == ScaleResult(k, Backtest(run))
  {
    hide StateAfter, PerformanceMetrics, Scale, Worth, Gain;
    var a, last := StateAfter(run, |run.candles|).account, LastPrice(run.candles);
    StateScales(run, k, big, |run.candles|);
    ScaleKeepsOrder(k, a.position, 0.0);
    WorthScales(k, a.position, last);
    ScaleIsLinear(k, a.cash, Worth(a.position, last));
    if a.entry.Some? {
      GainScales(k, a.entry.value, last, a.position);
    }
    MetricsScale(k, run.initialBalance, a.cash + Worth(a.position, last), a.realized, a.closed,
                 StateAfter(run, |run.candles|).trades);
  }

  lemma ThresholdScales(k: real, visible: seq<Candle>, position: real,
                        entryBelow: Option<real>, exitAbove: Option<real>, quantity: Option<real>)
    requires k > 0.0
    ensures ThresholdDecision(entryBelow, exitAbove, ScaleOption(k, quantity), visible, Scale(k, position))
         == ScaleDecision(k, ThresholdDecision(entryBelow, exitAbove, quantity, visible, position))
  {
  }

  /** The price-threshold strategy scales with its order quantity, so its runs are scale invariant. */
  lemma ThresholdRunsScale(run: Simulation, k: real, entryBelow: Option<real>, exitAbove: Option<real>,
                           quantity: Option<real>)
    requires k > 0.0 && run.strategy == ThresholdStrategy(entryBelow, exitAbove, quantity)
    ensures var scaled := ThresholdStrategy(entryBelow, exitAbove, ScaleOption(k, quantity));
            var big := Simulation(ScaleLimits(k, run.limits), scaled, Scale(k, run.initialBalance), run.candles);
            Backtest(big) == ScaleResult(k, Backtest(run))
  {
    var scaled := ThresholdStrategy(entryBelow, exitAbove, ScaleOption(k, quantity));
    forall visible: seq<Candle>, position: real
      ensures scaled(visible, Scale(k, position)) == ScaleDecision(k, run.strategy(visible, position))
    {
      ThresholdScales(k, visible, position, entryBelow, exitAbove, quantity);
    }
    BacktestScales(run, k, Simulation(ScaleLimits(k, run.limits), scaled, Scale(k, run.initialBalance), run.candles));
  }
}
