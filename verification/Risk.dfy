/**
 * The risk gate that every order passes before it is executed (app/engine/risk.py).
 * `Decimal` is modelled by `real`; the free-text `details` of a decision are left out.
 */
module Risk {
  import opened Optional

  datatype Action = Buy | Sell | Hold | Skip

  datatype RiskReason =
    | Allowed
    | MaxTradeQuantityExceeded
    | MaxPositionQuantityExceeded
    | StopLossTriggered

  datatype RiskLimits = RiskLimits(
    maxTradeQuantity: Option<real>,
    maxPositionQuantity: Option<real>,
    stopLossPercent: Option<real>
  )

  datatype RiskDecision = RiskDecision(allowed: bool, action: Action, reason: RiskReason)

  function StopPrice(entry: real, percent: real): real {
    entry * (100.0 - percent) / 100.0
  }

  function EvaluateStopLoss(limits: RiskLimits, position: real, entry: Option<real>, price: Option<real>)
    : Option<RiskDecision>
  {
    if limits.stopLossPercent.None? || position <= 0.0 || entry.None? || price.None? then
      None
    else if price.value <= StopPrice(entry.value, limits.stopLossPercent.value) then
      Some(RiskDecision(true, Sell, StopLossTriggered))
    else
      None
  }

  function EvaluateTradeLimits(limits: RiskLimits, action: Action, quantity: Option<real>, position: real,
                               allowedDecision: RiskDecision): RiskDecision
  {
    if (action != Buy && action != Sell) || quantity.None? then
      allowedDecision
    else if limits.maxTradeQuantity.Some? && quantity.value > limits.maxTradeQuantity.value then
      RiskDecision(false, Skip, MaxTradeQuantityExceeded)
    else if action == Buy && limits.maxPositionQuantity.Some?
            && position + quantity.value > limits.maxPositionQuantity.value then
      RiskDecision(false, Skip, MaxPositionQuantityExceeded)
    else
      allowedDecision
  }

  function Evaluate(limits: RiskLimits, action: Action, quantity: Option<real>, position: real,
                    entry: Option<real>, price: Option<real>): RiskDecision
  {
    var stopLoss := EvaluateStopLoss(limits, position, entry, price);
    if stopLoss.Some? then
      EvaluateTradeLimits(limits, stopLoss.value.action, Some(position), position, stopLoss.value)
    else
      EvaluateTradeLimits(limits, action, quantity, position, RiskDecision(true, action, Allowed))
  }

  /** A quantity the two quantity limits accept as a fresh position. */
  predicate Admits(limits: RiskLimits, quantity: real) {
    && (limits.maxTradeQuantity.Some? ==> quantity <= limits.maxTradeQuantity.value)
    && (limits.maxPositionQuantity.Some? ==> quantity <= limits.maxPositionQuantity.value)
  }

  /** An open position has lost the stop-loss percentage of its entry price, or more. */
  predicate StopHit(limits: RiskLimits, position: real, entry: Option<real>, price: real) {
    && position > 0.0
    && limits.stopLossPercent.Some?
    && entry.Some?
    && 100.0 * (entry.value - price) >= limits.stopLossPercent.value * entry.value
  }

  /**
   * What the gate does, on every input. The stop is hit when an open position has lost the stop-loss
   * percentage of its entry price or more. The order that is judged is the requested one, or a full
   * exit when the stop is hit; it goes through unchanged exactly when it breaks no quantity limit,
   * and a refusal names the first limit that it breaks.
   */
  lemma GateVerdict(limits: RiskLimits, action: Action, quantity: Option<real>, position: real,
                    entry: Option<real>, price: Option<real>)
    ensures var verdict := Evaluate(limits, action, quantity, position, entry, price);
            var stopped := position > 0.0 && limits.stopLossPercent.Some? && entry.Some? && price.Some?
                           && 100.0 * (entry.value - price.value) >= limits.stopLossPercent.value * entry.value;
            var order := if stopped then Sell else action;
            var size := if stopped then Some(position) else quantity;
            var sized := (order == Buy || order == Sell) && size.Some?;
            var overTrade := sized && limits.maxTradeQuantity.Some? && size.value > limits.maxTradeQuantity.value;
            var overPosition := sized && order == Buy && limits.maxPositionQuantity.Some?
                                && position + size.value > limits.maxPositionQuantity.value;
            && (verdict.allowed <==> !overTrade && !overPosition)
            && (verdict.allowed ==> verdict.action == order)
            && (!verdict.allowed ==> verdict.action == Skip)
            && (verdict.reason == StopLossTriggered <==> stopped && verdict.allowed)
            && (verdict.reason == MaxTradeQuantityExceeded <==> overTrade)
            && (verdict.reason == MaxPositionQuantityExceeded <==> overPosition && !overTrade)
  {
  }

  /**
   * Stop-loss exits outrank strategy signals: once the stop is hit the verdict no longer depends
   * on what the strategy asked for.
   */
  lemma StopOverridesSignal(limits: RiskLimits, position: real, entry: Option<real>, price: real,
                            action: Action, quantity: Option<real>, action': Action, quantity': Option<real>)
    requires StopHit(limits, position, entry, price)
    ensures Evaluate(limits, action, quantity, position, entry, Some(price))
         == Evaluate(limits, action', quantity', position, entry, Some(price))
  {
  }
}
