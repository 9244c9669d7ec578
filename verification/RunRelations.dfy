/**
 * Properties that compare two runs: a longer history never changes what was done on a shorter one,
 * and a constant order size makes the quantity limits all or nothing.
 */
module RunRelations {
  import opened Optional
  import opened Risk
  import opened Strategies
  import opened Backtesting
  import opened Soundness

  // ----- no look-ahead -----

  lemma {:induction false} SharedPast(run: Simulation, other: seq<Candle>, k: nat)
    requires k <= |run.candles| && k <= |other| && run.candles[..k] == other[..k]
    ensures StateAfter(run, k) == StateAfter(run.(candles := other), k)
  {
    hide Step;
    if k > 0 {
      assert run.candles[..k - 1] == run.candles[..k][..k - 1] == other[..k][..k - 1] == other[..k - 1];
      SharedPast(run, other, k - 1);
    }
  }

  lemma {:induction false} RecordsOnlyGrow(run: Simulation, k: nat, m: nat)
    requires k <= m <= |run.candles|
    ensures var early, late := StateAfter(run, k), StateAfter(run, m);
            early.trades <= late.trades && early.decisions <= late.decisions && |late.decisions| == m
    decreases m
  {
    hide Decide, Step;
    if m > 0 {
      RecordsOnlyGrow(run, if k == m then m - 1 else k, m - 1);
      NextState(run, m - 1);
    }
  }

  /**
   * Entry `i` of the decision log is what the strategy answers when it sees the candles up to and
   * including candle `i` and the position open before it.
   */
  lemma {:induction false} DecisionsAreLogged(run: Simulation, k: nat)
    requires k <= |run.candles|
    ensures var decisions := StateAfter(run, k).decisions;
            |decisions| == k
            && forall i :: 0 <= i < k ==>
                 decisions[i] == run.strategy(run.candles[..i + 1], StateAfter(run, i).account.position)
  {
    hide Decide, Step;
    if k > 0 {
      DecisionsAreLogged(run, k - 1);
      NextState(run, k - 1);
    }
  }

  /**
   * No look-ahead, for any strategy: on any extension of the history, the run makes the same
   * decisions and trades at the shared candles and only adds to them, and it decides once per candle.
   */
  lemma NoLookAhead(run: Simulation, later: seq<Candle>)
    ensures var short, long := Backtest(run), Backtest(run.(candles := run.candles + later));
            && |short.decisions| == |run.candles|
            && |long.decisions| == |run.candles| + |later|
            && short.decisions == long.decisions[..|run.candles|]
            && short.trades <= long.trades
    ensures StateAfter(run, |run.candles|) == StateAfter(run.(candles := run.candles + later), |run.candles|)
  {
    hide StateAfter, PerformanceMetrics;
    var n, extended := |run.candles|, run.(candles := run.candles + later);
    assert run.candles[..n] == extended.candles[..n];
    SharedPast(run, extended.candles, n);
    RecordsOnlyGrow(run, n, n);
    RecordsOnlyGrow(extended, n, |extended.candles|);
  }

  // ----- limit dichotomy -----

  /** The limits with both quantity limits lifted and the stop-loss kept. */
  function StopOnly(limits: RiskLimits): RiskLimits {
    RiskLimits(None, None, limits.stopLossPercent)
  }

  lemma {:induction false} RefusedQuantityNeverTrades(run: Simulation, quantity: real, k: nat)
    requires Valid(run) && k <= |run.candles|
    requires ConstantQuantity(run.strategy, quantity) && !Admits(run.limits, quantity)
    ensures StateAfter(run, k).account == Opening(run.initialBalance) && StateAfter(run, k).trades == []
  {
    hide Decide, Step;
    if k > 0 {
      RefusedQuantityNeverTrades(run, quantity, k - 1);
      EveryStateIsSound(run, k - 1);
      NextState(run, k - 1);
      DecisionTable(run.limits, DecisionAt(run, k - 1), run.candles[k - 1].close, StateAfter(run, k - 1).account);
    }
  }

  lemma {:induction false} AdmittedQuantityIgnoresLimits(run: Simulation, quantity: real, k: nat)
    requires Valid(run) && k <= |run.candles|
    requires ConstantQuantity(run.strategy, quantity) && Admits(run.limits, quantity)
    ensures StateAfter(run, k) == StateAfter(run.(limits := StopOnly(run.limits)), k)
  {
    hide Decide, Perform, Step;
    if k > 0 {
      var free := run.(limits := StopOnly(run.limits));
      AdmittedQuantityIgnoresLimits(run, quantity, k - 1);
      EveryStateIsSound(run, k - 1);
      EveryStateIsSound(free, k - 1);
      NextState(run, k - 1);
      NextState(free, k - 1);
      var a, close := StateAfter(run, k - 1).account, run.candles[k - 1].close;
      DecisionTable(run.limits, DecisionAt(run, k - 1), close, a);
      DecisionTable(free.limits, DecisionAt(run, k - 1), close, a);
    }
  }

  /**
   * Limit dichotomy: with a constant order quantity the quantity limits are all or nothing. Either
   * the quantity breaks a limit and the run trades nothing and keeps its cash, or the run is the
   * one without quantity limits, candle for candle.
   */
  lemma LimitDichotomy(run: Simulation, quantity: real)
    requires Valid(run) && ConstantQuantity(run.strategy, quantity)
    ensures var r := Backtest(run);
            if Admits(run.limits, quantity) then r == Backtest(run.(limits := StopOnly(run.limits)))
            else r.trades == [] && r.account == Opening(run.initialBalance) && r.finalBalance == run.initialBalance
  {
    hide StateAfter, PerformanceMetrics;
    if Admits(run.limits, quantity) {
      AdmittedQuantityIgnoresLimits(run, quantity, |run.candles|);
    } else {
      RefusedQuantityNeverTrades(run, quantity, |run.candles|);
    }
  }
}
