/**
 * Whole-run theorems for the price-threshold strategy: without a stop-loss it never loses, it never
 * lacks the cash to buy, it trades exactly like a cash-free hysteresis switch over the closes, and
 * no other way of pairing a low with a later high completes more round trips.
 */
module ThresholdRuns {
  import opened Optional
  import opened Risk
  import opened Strategies
  import opened Backtesting
  import opened Soundness
  import opened TradeLog

  /** The thresholds and order size of a run, without a stop-loss. */
  datatype Rule = Rule(entryBelow: real, exitAbove: real, quantity: real)

  ghost predicate Follows(run: Simulation, rule: Rule) {
    && run.strategy == ThresholdStrategy(Some(rule.entryBelow), Some(rule.exitAbove), Some(rule.quantity))
    && rule.quantity > 0.0
    && rule.entryBelow < rule.exitAbove
    && run.limits.stopLossPercent.None?
    && run.initialBalance >= 0.0
    && PositiveCloses(run.candles)
  }

  lemma FollowerIsValid(run: Simulation, rule: Rule)
    requires Follows(run, rule)
    ensures Valid(run)
  {
  }

  /** What a follower does with a candle, given a sound account. */
  lemma FollowerOutcome(run: Simulation, rule: Rule, k: nat)
    requires Follows(run, rule) && k < |run.candles|
    ensures var a, close := StateAfter(run, k).account, run.candles[k].close;
            && (OutcomeAt(run, k).Sold? <==> a.position > 0.0 && close >= rule.exitAbove)
            && (OutcomeAt(run, k).Bought? <==>
                  a.position == 0.0 && close <= rule.entryBelow && Admits(run.limits, rule.quantity)
                  && Worth(rule.quantity, close) <= a.cash)
            && (OutcomeAt(run, k).Bought? ==> OutcomeAt(run, k).quantity == rule.quantity)
            && Sound(run.limits, a)
  {
    hide Decide, Step, EvaluatePriceThreshold;
    FollowerIsValid(run, rule);
    EveryStateIsSound(run, k);
    ThresholdRule(Some(run.candles[k].close), StateAfter(run, k).account.position,
                  Some(rule.entryBelow), Some(rule.exitAbove));
    DecisionTable(run.limits, DecisionAt(run, k), run.candles[k].close, StateAfter(run, k).account);
    assert run.candles[..k + 1][k] == run.candles[k];
  }

  // ----- the rule never loses -----

  /** What a closed trade earns at least: the gap between the thresholds on the whole order. */
  function Margin(rule: Rule): real {
    Gain(rule.entryBelow, rule.exitAbove, rule.quantity)
  }

  lemma GainAtLeastMargin(rule: Rule, entry: real, price: real)
    requires rule.quantity > 0.0 && entry <= rule.entryBelow < rule.exitAbove <= price
    ensures Gain(entry, price, rule.quantity) >= Margin(rule) > 0.0
  {
  }

  /** Every closed trade so far won at least the margin, and every trade was of the whole order. */
  ghost predicate Winning(rule: Rule, s: State) {
    && (s.account.entry.Some? ==> s.account.entry.value <= rule.entryBelow && s.account.position == rule.quantity)
    && s.account.losing == 0
    && s.account.winning == s.account.closed
    && s.account.realized >= (s.account.closed as real) * Margin(rule)
    && (forall n :: 0 <= n < |s.trades| && s.trades[n].side == SellSide ==> s.trades[n].realizedPnl >= Margin(rule))
    && (forall n :: 0 <= n < |s.trades| ==> s.trades[n].quantity == rule.quantity)
  }

  lemma OneMore(closed: nat, margin: real)
    ensures ((closed + 1) as real) * margin == (closed as real) * margin + margin
  {
  }

  lemma PerformKeepsWinning(run: Simulation, rule: Rule, k: nat)
    requires Follows(run, rule) && k < |run.candles|
    requires Winning(rule, StateAfter(run, k))
    ensures Winning(rule, StateAfter(run, k + 1))
  {
    hide Decide, Step, Margin, Gain, Worth;
    FollowerOutcome(run, rule, k);
    NextState(run, k);
    var a, close := StateAfter(run, k).account, run.candles[k].close;
    if OutcomeAt(run, k).Sold? {
      GainAtLeastMargin(rule, a.entry.value, close);
      OneMore(a.closed, Margin(rule));
    }
  }

  /**
   * Threshold runs without a stop-loss never lose, with any balance and any quantity limits: every
   * closed trade earns at least the margin, no trade loses, and the realized PnL is at least the
   * margin per closed trade.
   */
  lemma {:induction false} ThresholdRunsNeverLose(run: Simulation, rule: Rule, k: nat)
    requires Follows(run, rule) && k <= |run.candles|
    ensures Winning(rule, StateAfter(run, k))
  {
    hide Winning, Step;
    if k == 0 {
      assert Winning(rule, StateAfter(run, 0)) by { StartsWinning(run, rule); }
    } else {
      ThresholdRunsNeverLose(run, rule, k - 1);
      PerformKeepsWinning(run, rule, k - 1);
    }
  }

  lemma StartsWinning(run: Simulation, rule: Rule)
    ensures Winning(rule, StateAfter(run, 0))
  {
  }

  // ----- refinement to a hysteresis switch -----

  /**
   * The cash-free switch: the candles at which it flips, first on at or below the entry level, then
   * off at or above the exit level, and so on. It is on after an odd number of flips.
   */
  function Hysteresis(rule: Rule, candles: seq<Candle>, k: nat): seq<nat>
    requires k <= |candles|
  {
    if k == 0 then []
    else
      var flips, close := Hysteresis(rule, candles, k - 1), candles[k - 1].close;
      if (if |flips| % 2 == 0 then close <= rule.entryBelow else close >= rule.exitAbove) then flips + [k - 1]
      else flips
  }

  /** The order fits the limits, and the opening balance covers one order at the entry level. */
  ghost predicate Funded(run: Simulation, rule: Rule) {
    && Admits(run.limits, rule.quantity)
    && run.initialBalance >= Worth(rule.quantity, rule.entryBelow)
  }

  lemma WorthMonotone(quantity: real, low: real, high: real)
    requires quantity > 0.0 && low <= high
    ensures Worth(quantity, low) <= Worth(quantity, high)
  {
  }

  /** The affordability check never refuses a funded run: flat at or below the entry level, it buys. */
  lemma AffordabilityNeverRefuses(run: Simulation, rule: Rule, k: nat)
    requires Follows(run, rule) && Funded(run, rule) && k < |run.candles|
    ensures var a := StateAfter(run, k).account;
            && (a.position == 0.0 ==> a.cash >= run.initialBalance)
            && (OutcomeAt(run, k).Bought? <==> a.position == 0.0 && run.candles[k].close <= rule.entryBelow)
  {
    hide Decide, Step, Margin, Worth;
    FollowerOutcome(run, rule, k);
    FollowerIsValid(run, rule);
    EveryStateIsSound(run, k);
    ThresholdRunsNeverLose(run, rule, k);
    var a, close := StateAfter(run, k).account, run.candles[k].close;
    GainAtLeastMargin(rule, rule.entryBelow, rule.exitAbove);
    assert a.realized >= 0.0 by {
      assert (a.closed as real) * Margin(rule) >= 0.0;
    }
    if close <= rule.entryBelow {
      WorthMonotone(rule.quantity, close, rule.entryBelow);
    }
  }

  /** The run is open exactly while the switch is on, and trades exactly where the switch flips. */
  lemma {:induction false} RunFlipsWithSwitch(run: Simulation, rule: Rule, k: nat)
    requires Follows(run, rule) && Funded(run, rule) && k <= |run.candles|
    ensures TradingCandles(run, k) == Hysteresis(rule, run.candles, k)
    ensures var on := |Hysteresis(rule, run.candles, k)| % 2 == 1;
            StateAfter(run, k).account.position == if on then rule.quantity else 0.0
  {
    hide Decide, Step, Worth, Gain, OutcomeAt, DecisionAt, Funded;
    if k > 0 {
      RunFlipsWithSwitch(run, rule, k - 1);
      AffordabilityNeverRefuses(run, rule, k - 1);
      FollowerOutcome(run, rule, k - 1);
      NextState(run, k - 1);
    }
  }

  /**
   * Refinement to the two-state switch: a funded run makes exactly the switch's trades. Entry n of
   * its log is a buy for even n and a sell for odd n, of the whole order, at the close and time of
   * the switch's n-th flip.
   */
  lemma RunRefinesSwitch(run: Simulation, rule: Rule)
    requires Follows(run, rule) && Funded(run, rule)
    ensures var flips, trades := Hysteresis(rule, run.candles, |run.candles|), Backtest(run).trades;
            && |trades| == |flips|
            && forall n :: 0 <= n < |flips| ==>
                 && flips[n] < |run.candles|
                 && trades[n].side == (if n % 2 == 0 then BuySide else SellSide)
                 && trades[n].price == run.candles[flips[n]].close
                 && trades[n].openedAt == run.candles[flips[n]].closeTime
                 && trades[n].quantity == rule.quantity
  {
    hide Decide, Step, Worth, Gain, Replay, StateAfter, TradingCandles, PerformanceMetrics, RecordsReplay;
    var n := |run.candles|;
    FollowerIsValid(run, rule);
    RunFlipsWithSwitch(run, rule, n);
    TradesFollowCandles(run, n);
    LogReplays(run, n);
    ThresholdRunsNeverLose(run, rule, n);
  }

  /**
   * The funding condition is needed: below it, one candle at a positive entry level is a history on
   * which the switch flips and the run does nothing.
   */
  lemma FundingIsNeeded(run: Simulation, rule: Rule, time: int)
    requires Follows(run, rule) && !Funded(run, rule) && rule.entryBelow > 0.0
    ensures var short := run.(candles := [Candle(rule.entryBelow, time)]);
            && Hysteresis(rule, short.candles, 1) == [0]
            && Backtest(short).trades == []
  {
    hide Decide, Worth, PerformanceMetrics;
    var short := run.(candles := [Candle(rule.entryBelow, time)]);
    FollowerOutcome(short, rule, 0);
    NextState(short, 0);
    assert Hysteresis(rule, short.candles, 0) == [];
  }

  // ----- greedy optimality -----

  /**
   * A schedule picks candles in order, alternately one at or below the entry level and one at or
   * above the exit level. With 2k candles it is k disjoint low-then-high pairs.
   */
  ghost predicate IsSchedule(rule: Rule, candles: seq<Candle>, k: nat, picks: seq<nat>)
    requires k <= |candles|
  {
    && (forall n :: 0 <= n < |picks| ==> picks[n] < k)
    && (forall m, n :: 0 <= m < n < |picks| ==> picks[m] < picks[n])
    && (forall n :: 0 <= n < |picks| ==>
          if n % 2 == 0 then candles[picks[n]].close <= rule.entryBelow
          else candles[picks[n]].close >= rule.exitAbove)
  }

  lemma {:induction false} SwitchIsSchedule(rule: Rule, candles: seq<Candle>, k: nat)
    requires k <= |candles|
    ensures IsSchedule(rule, candles, k, Hysteresis(rule, candles, k))
  {
    if k > 0 {
      SwitchIsSchedule(rule, candles, k - 1);
    }
  }

  /** No schedule is longer than the switch's: whenever it has caught up, the switch flips too. */
  lemma {:induction false} NoLongerSchedule(rule: Rule, candles: seq<Candle>, k: nat, picks: seq<nat>)
    requires k <= |candles| && IsSchedule(rule, candles, k, picks)
    ensures |picks| <= |Hysteresis(rule, candles, k)|
  {
    if k > 0 {
      if picks != [] && picks[|picks| - 1] == k - 1 {
        NoLongerSchedule(rule, candles, k - 1, picks[..|picks| - 1]);
      } else {
        NoLongerSchedule(rule, candles, k - 1, picks);
      }
    }
  }

  /**
   * Greedy optimality: the closed trades of a funded run are the most round trips any choice of
   * disjoint low-then-high candle pairs can make, and the run's own flips are such a choice.
   */
  lemma GreedyIsOptimal(run: Simulation, rule: Rule)
    requires Follows(run, rule) && Funded(run, rule)
    ensures var n := |run.candles|;
            var flips, closed := Hysteresis(rule, run.candles, n), Backtest(run).account.closed;
            && 2 * closed <= |flips| && IsSchedule(rule, run.candles, n, flips[..2 * closed])
            && forall picks :: IsSchedule(rule, run.candles, n, picks) ==> |picks| / 2 <= closed
  {
    hide Decide, Step, Worth, Gain, Replay, StateAfter, PerformanceMetrics, RecordsReplay, TradingCandles;
    var n := |run.candles|;
    FollowerIsValid(run, rule);
    RunFlipsWithSwitch(run, rule, n);
    TradesFollowCandles(run, n);
    LogReplays(run, n);
    SwitchIsSchedule(rule, run.candles, n);
    forall picks | IsSchedule(rule, run.candles, n, picks) ensures |picks| / 2 <= Backtest(run).account.closed {
      NoLongerSchedule(rule, run.candles, n, picks);
    }
  }
}
