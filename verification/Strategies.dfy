/**
 * Candles, strategy decisions and the price-threshold strategy
 * (app/engine/strategy_evaluator.py, app/engine/strategy_engine.py).
 */
module Strategies {
  import opened Optional
  import opened Risk

  /** The part of a stored candle that the simulator reads. Times are instants. */
  datatype Candle = Candle(close: real, closeTime: int)

  datatype StrategyDecision = StrategyDecision(action: Action, reason: string, orderQuantity: Option<real>)

  /**
   * A strategy sees the candles up to and including the current one and the open quantity.
   * Its other arguments (type, parameters, profile) do not change during a run.
   */
  type Strategy = (seq<Candle>, real) -> StrategyDecision

  datatype Signal = Signal(action: Action, reason: string)

  function EvaluatePriceThreshold(latestPrice: Option<real>, position: real,
                                  entryBelow: Option<real>, exitAbove: Option<real>): Signal
  {
    if latestPrice.None? then
      Signal(Skip, "no_latest_price")
    else if position <= 0.0 then
      if entryBelow.None? then Signal(Skip, "entry_below_not_configured")
      else if latestPrice.value <= entryBelow.value then Signal(Buy, "entry_threshold_reached")
      else Signal(Hold, "entry_threshold_not_met")
    else
      if exitAbove.None? then Signal(Skip, "exit_above_not_configured")
      else if latestPrice.value >= exitAbove.value then Signal(Sell, "exit_threshold_reached")
      else Signal(Hold, "exit_threshold_not_met")
  }

  /** The threshold rule as the engine runs it: the configured quantity rides on every decision. */
  function ThresholdDecision(entryBelow: Option<real>, exitAbove: Option<real>, quantity: Option<real>,
                             visible: seq<Candle>, position: real): StrategyDecision
  {
    var price := if visible == [] then None else Some(visible[|visible| - 1].close);
    var signal := EvaluatePriceThreshold(price, position, entryBelow, exitAbove);
    StrategyDecision(signal.action, signal.reason, quantity)
  }

  function ThresholdStrategy(entryBelow: Option<real>, exitAbove: Option<real>, quantity: Option<real>): Strategy {
    (visible, position) => ThresholdDecision(entryBelow, exitAbove, quantity, visible, position)
  }

  /** Every order quantity a strategy can ask for is positive. */
  ghost predicate PositiveOrders(strategy: Strategy) {
    forall visible: seq<Candle>, position: real ::
      strategy(visible, position).orderQuantity.Some? ==> strategy(visible, position).orderQuantity.value > 0.0
  }

  /** Every order quantity a strategy can ask for is `quantity`. */
  ghost predicate ConstantQuantity(strategy: Strategy, quantity: real) {
    forall visible: seq<Candle>, position: real ::
      strategy(visible, position).orderQuantity.Some? ==> strategy(visible, position).orderQuantity.value == quantity
  }

  predicate PositiveCloses(candles: seq<Candle>) {
    forall i :: 0 <= i < |candles| ==> candles[i].close > 0.0
  }

  /**
   * The two-sided threshold rule of the README: a buy exactly when flat at or below the entry
   * level, a sell exactly when long at or above the exit level, a skip exactly when there is no price
   * or the level that the position calls for is not configured; each case has its own reason.
   */
  lemma ThresholdRule(price: Option<real>, position: real, entryBelow: Option<real>, exitAbove: Option<real>)
    ensures var signal := EvaluatePriceThreshold(price, position, entryBelow, exitAbove);
            && (signal.action == Buy <==>
                  price.Some? && position <= 0.0 && entryBelow.Some? && price.value <= entryBelow.value)
            && (signal.action == Sell <==>
                  price.Some? && position > 0.0 && exitAbove.Some? && price.value >= exitAbove.value)
            && (signal.action == Skip <==> price.None? || if position <= 0.0 then entryBelow.None? else exitAbove.None?)
            && (signal.action == Buy ==> signal.reason == "entry_threshold_reached")
            && (signal.action == Sell ==> signal.reason == "exit_threshold_reached")
            && (signal.action == Hold ==>
                  signal.reason == if position <= 0.0 then "entry_threshold_not_met" else "exit_threshold_not_met")
            && (signal.action == Skip ==>
                  signal.reason == if price.None? then "no_latest_price"
                                   else if position <= 0.0 then "entry_below_not_configured"
                                   else "exit_above_not_configured")
  {
  }

  /**
   * The threshold strategy decides by the last close it sees, whatever came before: action and reason
   * are those of the rule at that close, and the configured quantity rides along.
   */
  lemma ThresholdSeesLastClose(entryBelow: Option<real>, exitAbove: Option<real>, quantity: Option<real>,
                               earlier: seq<Candle>, last: Candle, position: real)
    ensures var decision := ThresholdStrategy(entryBelow, exitAbove, quantity)(earlier + [last], position);
            var signal := EvaluatePriceThreshold(Some(last.close), position, entryBelow, exitAbove);
            && decision.action == signal.action
            && decision.reason == signal.reason
            && decision.orderQuantity == quantity
  {
  }
}
