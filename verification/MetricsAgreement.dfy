/**
 * The performance metrics, computed from the trade log after the run, agree with the counters that
 * the loop kept, and order and bound each other as their names promise.
 */
module MetricsAgreement {
  import opened Optional
  import opened Quotients
  import opened Strategies
  import opened Backtesting
  import opened Soundness
  import opened TradeLog

  // ----- the list arithmetic behind the metrics -----

  lemma {:induction false} WinnersAndLosersMakeUpTheSum(pnls: seq<real>)
    ensures Sum(pnls) == Sum(Winners(pnls)) + Sum(Losers(pnls))
    ensures |Winners(pnls)| + |Losers(pnls)| <= |pnls|
    ensures Sum(Winners(pnls)) >= 0.0 && (Sum(Winners(pnls)) > 0.0 <==> Winners(pnls) != [])
    ensures Sum(Losers(pnls)) <= 0.0 && (Sum(Losers(pnls)) < 0.0 <==> Losers(pnls) != [])
  {
    if pnls != [] {
      var rest, last := pnls[..|pnls| - 1], pnls[|pnls| - 1];
      WinnersAndLosersMakeUpTheSum(rest);
      SumAppend(Winners(rest), last);
      SumAppend(Losers(rest), last);
      assert last == 0.0 ==> Winners(pnls) == Winners(rest) && Losers(pnls) == Losers(rest);
      assert last > 0.0 ==> Losers(pnls) == Losers(rest);
      assert last < 0.0 ==> Winners(pnls) == Winners(rest);
    }
  }

  /** `Winners` are the positive PnLs, each as often as it occurs, and `Losers` the negative ones. */
  lemma {:induction false} WinnersAreTheGains(pnls: seq<real>)
    ensures forall x :: multiset(Winners(pnls))[x] == if x > 0.0 then multiset(pnls)[x] else 0
    ensures forall x :: multiset(Losers(pnls))[x] == if x < 0.0 then multiset(pnls)[x] else 0
  {
    if pnls != [] {
      var rest, last := pnls[..|pnls| - 1], pnls[|pnls| - 1];
      WinnersAreTheGains(rest);
      assert pnls == rest + [last];
    }
  }

  lemma SumAppend(values: seq<real>, last: real)
    ensures Sum(values + [last]) == Sum(values) + last
  {
  }

  /** `Max` and `Min` are the greatest and least member. */
  lemma {:induction false} ExtremesAreMembers(values: seq<real>)
    requires values != []
    ensures Min(values) in values && Max(values) in values
    ensures forall i :: 0 <= i < |values| ==> Min(values) <= values[i] <= Max(values)
  {
    var rest, last := values[..|values| - 1], values[|values| - 1];
    assert values == rest + [last];
    if rest != [] {
      ExtremesAreMembers(rest);
    }
  }

  lemma {:induction false} BoundsCarryToTheSum(values: seq<real>, low: real, high: real)
    requires forall i :: 0 <= i < |values| ==> low <= values[i] <= high
    ensures (|values| as real) * low <= Sum(values) <= (|values| as real) * high
  {
    if values != [] {
      var rest := values[..|values| - 1];
      BoundsCarryToTheSum(rest, low, high);
      var n := |rest| as real;
      assert |values| as real == n + 1.0;
      assert (n + 1.0) * low == n * low + low && (n + 1.0) * high == n * high + high;
    }
  }

  // ----- counters and log -----

  /** The loop's totals are those of the log. */
  ghost predicate Tallied(s: State) {
    var pnls := SellPnls(s.trades);
    && Sum(pnls) == s.account.realized
    && |pnls| == s.account.closed
    && |Winners(pnls)| == s.account.winning
    && |Losers(pnls)| == s.account.losing
  }

  lemma PnlsAppend(trades: seq<Trade>, t: Trade)
    ensures SellPnls(trades + [t]) ==
              if t.side == SellSide then SellPnls(trades) + [t.realizedPnl] else SellPnls(trades)
  {
    assert (trades + [t])[..|trades|] == trades;
  }

  lemma WinnersAppend(pnls: seq<real>, pnl: real)
    ensures Winners(pnls + [pnl]) == if pnl > 0.0 then Winners(pnls) + [pnl] else Winners(pnls)
    ensures Losers(pnls + [pnl]) == if pnl < 0.0 then Losers(pnls) + [pnl] else Losers(pnls)
  {
    assert (pnls + [pnl])[..|pnls|] == pnls;
  }

  lemma PerformKeepsTally(outcome: Outcome, candle: Candle, s: State)
    requires Tallied(s) && (outcome.Sold? ==> s.account.entry.Some?)
    ensures Tallied(Perform(outcome, candle, s))
  {
    hide Worth, Gain, SellPnls, Sum, Winners, Losers;
    var pnls := SellPnls(s.trades);
    match outcome
    case NoTrade =>
    case Bought(_, _) =>
      PnlsAppend(s.trades, Perform(outcome, candle, s).trades[|s.trades|]);
    case Sold(_) =>
      var t := Perform(outcome, candle, s).trades[|s.trades|];
      PnlsAppend(s.trades, t);
      SumAppend(pnls, t.realizedPnl);
      WinnersAppend(pnls, t.realizedPnl);
  }

  /** In every reachable state the counters of the loop are the tallies of the trade log. */
  lemma {:induction false} CountersMatchLog(run: Simulation, k: nat)
    requires Valid(run) && k <= |run.candles|
    ensures Tallied(StateAfter(run, k))
  {
    hide Decide, Step, Perform;
    if k > 0 {
      CountersMatchLog(run, k - 1);
      NextState(run, k - 1);
      EveryStateIsSound(run, k - 1);
      PerformKeepsTally(OutcomeAt(run, k - 1), run.candles[k - 1], Observed(run, k - 1));
    }
  }

  /** In an alternating log the PnLs of the sells are those of every second entry, in order. */
  lemma {:induction false} SellsAreOddEntries(trades: seq<Trade>)
    requires forall n :: 0 <= n < |trades| ==> (trades[n].side == SellSide <==> n % 2 == 1)
    ensures |SellPnls(trades)| == |trades| / 2
    ensures forall n :: 0 <= n < |trades| / 2 ==> SellPnls(trades)[n] == trades[2 * n + 1].realizedPnl
  {
    if trades != [] {
      var rest, last := trades[..|trades| - 1], trades[|trades| - 1];
      assert trades == rest + [last];
      hide SellPnls;
      SellsAreOddEntries(rest);
      PnlsAppend(rest, last);
      forall n | 0 <= n < |trades| / 2 ensures SellPnls(trades)[n] == trades[2 * n + 1].realizedPnl {
        if 2 * n + 1 < |rest| {
          assert SellPnls(trades)[n] == SellPnls(rest)[n];
        }
      }
    }
  }

  /** The PnLs that the metrics are made of are those of every second entry of the reported log. */
  lemma MetricsReadEverySell(run: Simulation)
    requires Valid(run)
    ensures var r := Backtest(run); var pnls := SellPnls(r.trades);
            && |pnls| == r.account.closed == |r.trades| / 2
            && forall n :: 0 <= n < |pnls| ==>
                 r.trades[2 * n + 1].side == SellSide && pnls[n] == r.trades[2 * n + 1].realizedPnl
  {
    hide SellPnls, StateAfter, PerformanceMetrics, Replay, RecordsReplay;
    LogReplays(run, |run.candles|);
    SellsAreOddEntries(StateAfter(run, |run.candles|).trades);
  }

  /**
   * The reported metrics agree with the loop. With a closed trade: the win rate is the share of
   * winning trades and a percentage, the average lies between worst and best, the profit factor is
   * missing exactly when trades were won and none lost, and zero when none was won, and one that is
   * missing or above one means exactly that the run made money. Without a closed trade all are missing.
   */
  lemma MetricsAgree(run: Simulation)
    requires Valid(run)
    ensures var r := Backtest(run); var m := r.metrics;
            && r.account.winning + r.account.losing <= r.account.closed
            && (r.account.closed == 0 ==> m.winRate == m.averageTradePnl == m.bestTradePnl == m.worstTradePnl
                                          == m.profitFactor == None)
            && (r.account.closed > 0 ==>
                  && m.winRate == Some((r.account.winning as real) / (r.account.closed as real) * 100.0)
                  && 0.0 <= m.winRate.value <= 100.0
                  && m.worstTradePnl.Some? && m.averageTradePnl.Some? && m.bestTradePnl.Some?
                  && m.worstTradePnl.value <= m.averageTradePnl.value <= m.bestTradePnl.value
                  && (m.profitFactor.None? <==> r.account.winning > 0 && r.account.losing == 0)
                  && (r.account.winning == 0 ==> m.profitFactor == Some(0.0))
                  && (r.account.realized > 0.0 <==> m.profitFactor.None? || m.profitFactor.value > 1.0))
  {
    hide Decide, Step, Perform, Sum, Max, Min, Winners, Losers, SellPnls, StateAfter;
    CountersMatchLog(run, |run.candles|);
    var s := StateAfter(run, |run.candles|);
    var pnls := SellPnls(s.trades);
    var wins, losses := Sum(Winners(pnls)), Abs(Sum(Losers(pnls)));
    WinnersAndLosersMakeUpTheSum(pnls);
    if pnls != [] {
      ExtremesAreMembers(pnls);
      BoundsCarryToTheSum(pnls, Min(pnls), Max(pnls));
      MeanWithin(s.account.realized, s.account.closed as real, Min(pnls), Max(pnls));
      ShareIsPercentage(s.account.winning as real, s.account.closed as real);
      assert s.account.realized == wins - losses;
      if losses > 0.0 {
        RatioAboveOne(wins, losses);
      }
    }
  }

  /**
   * The reported figures in terms of the sells of the log: best and worst are the greatest and the
   * least of their PnLs, the average times the count is the realized PnL, the profit factor times
   * the gross loss is the gross win, and the return percentage is of the initial balance.
   */
  lemma FiguresComeFromLog(run: Simulation)
    requires Valid(run)
    ensures var r := Backtest(run); var m, pnls := r.metrics, SellPnls(r.trades);
            && |pnls| == r.account.closed
            && (m.totalReturnPercent.Some? <==> run.initialBalance > 0.0)
            && (run.initialBalance > 0.0 ==> m.totalReturnPercent.value * run.initialBalance == 100.0 * m.totalReturn)
            && (pnls != [] ==>
                  && m.bestTradePnl.Some? && m.worstTradePnl.Some? && m.averageTradePnl.Some?
                  && m.bestTradePnl.value in pnls && m.worstTradePnl.value in pnls
                  && (forall i :: 0 <= i < |pnls| ==> m.worstTradePnl.value <= pnls[i] <= m.bestTradePnl.value)
                  && m.averageTradePnl.value * (r.account.closed as real) == r.account.realized
                  && (m.profitFactor.Some? ==> m.profitFactor.value * -Sum(Losers(pnls)) == Sum(Winners(pnls))))
  {
    hide Decide, Step, Perform, Sum, Max, Min, Winners, Losers, SellPnls, StateAfter;
    CountersMatchLog(run, |run.candles|);
    var s := StateAfter(run, |run.candles|);
    var pnls := SellPnls(s.trades);
    WinnersAndLosersMakeUpTheSum(pnls);
    if pnls != [] {
      ExtremesAreMembers(pnls);
    }
  }
}
