# Verified model of the backtest simulator and the candle dashboard

This project models two parts of the trading automation platform in Dafny and proves properties of
them over all inputs, all runs and all gesture sequences.

**The backtest simulator.** `BacktestingEngine.run` replays a candle history: at each candle it asks
a strategy for a decision, passes it through the risk manager, and updates cash, position, entry
price, realized PnL, counters, a trade log and a decision log; performance metrics are computed from
the log at the end. `Backtesting.Run` is that loop. It is proved to compute `Backtest`, whose
recursive state `StateAfter(run, k)` is what the theorems speak about: `Decide` is what one candle
makes of a decision (through `Risk.Evaluate`), `Perform` carries it out.

**The dashboard's candle chart and run ranking.** Merging candle sets by timestamp, the zoom and pan
window with its two mutable globals (the class `CandleWindow.CandleModal`), the axis ticks, and the
grouping and ranking of saved runs.

| file | content |
|---|---|
| `Risk.dfy`, `Strategies.dfy`, `Backtesting.dfy` | the risk gate, the threshold rule, the simulator and its metrics |
| `Soundness.dfy` | decision table of one candle; caps, solvency, conservation, stop-loss, unblocked exits |
| `TradeLog.dfy`, `MetricsAgreement.dfy` | log replay, provenance of trades, metrics against counters |
| `RunRelations.dfy`, `ScaleInvariance.dfy` | no look-ahead, limit dichotomy, scale invariance |
| `ThresholdRuns.dfy`, `GapLoss.dfy` | the threshold rule: no losses, refinement to a switch, greedy optimality; gap-bounded losses |
| `StableSorting.dfy`, `CandleMerge.dfy` | stable sorting and its uniqueness; merging candles |
| `CandleWindow.dfy`, `WindowLaws.dfy`, `LoadingLaws.dfy` | the chart window, its laws, and its laws when older candles arrive |
| `AxisTicks.dfy` | the axis ticks |
| `Ranking.dfy` | ranking of saved runs and the comparison rows |
| `Optional.dfy`, `Searching.dfy`, `Quotients.dfy`, `Rounding.dfy` | helpers |

## Conventions

- `Decimal` and the dashboard's numbers are `real` or `int`, without rounding; 0.78 is 39/50 and 0.58
  is 29/50. `Math.round` rounds halves up, `Math.trunc` towards zero.
- A strategy is any pure function of the visible candles and the open quantity
  (`app/engine/backtesting.py:101-109`), so run theorems hold for every strategy type of
  `app/engine/strategy_engine.py`. `Valid` asks for what storage and parsing already enforce: positive
  closes (`alembic/versions/20260428_0014_create_market_candles_table.py:34-37`), positive order
  quantities (`app/engine/strategy_engine.py:750-751`), and an initial balance that is not
  negative (`app/schemas/backtest.py:137`).
- The threshold strategy keeps the evaluator's reason codes; the engine's wording of them is left out.
- `hide` statements only keep irrelevant definitions away from the verifier.

## Findings

Two expectations about the dashboard do not hold of the code. The model keeps the code, and each has
its exact condition:

- **A run without a return percentage, or without a return, does not rank last.** History items get
  `null` for a missing field (`frontend/app.js:2903-2904`), and `Number(null)` is 0, so
  `comparableNumber` treats it as 0: such a run is selected over every run that lost money.
  `MissingPercentRanksAsZero` and `MissingReturnRanksAsZero` say exactly when it ranks after a run, in
  terms of that run's percentage, return and time; `MissingPercentBeatsLoss` and
  `MissingReturnBeatsLoss` are the failing families.
- **Loading older candles can change what is shown.** With fewer than ten candles loaded, the minimum
  width of ten (`frontend/app.js:7491-7492`) widens the window as soon as anything new arrives.
  `OlderCandlesKeepTheView` proves that the view is kept if and only if at least ten candles were
  loaded or nothing new arrived; `FewCandlesAreNotAnchored` is a concrete case. `MergeKeepsTheView`
  is the exact condition for incoming candles of any age.

## Model

| member | source | states |
|---|---|---|
| Risk.GateVerdict | app/engine/risk.py:45-147 | the stop is hit if and only if an open position has lost the stop-loss percentage of its entry price or more; the gate judges the requested order, or a full exit when the stop is hit; it lets it through unchanged if and only if it breaks no quantity limit, and a refusal names the first limit broken |
| Risk.StopOverridesSignal | app/engine/risk.py:54-65 | once the stop is hit the verdict no longer depends on what the strategy asked for |
| Strategies.ThresholdRule | app/engine/strategy_evaluator.py:12-33 | buy if and only if flat at or below the entry level, sell if and only if long at or above the exit level, skip if and only if the price or the level needed is missing; the reason of each of the seven cases |
| Strategies.ThresholdSeesLastClose | app/engine/strategy_engine.py:158-198 | the threshold strategy answers by the last close it sees, with the action and reason of the rule there and the configured quantity, whatever came before |
| Backtesting.Run | app/engine/backtesting.py:88-219 | the loop with its early exits computes `Backtest`: the state after the last candle and the report made of it; the final balance is cash plus the position at the last close |
| Backtesting.ReportValuesAtLastClose | app/engine/backtesting.py:178-184 | every run, the empty one included, is valued at its last close: final balance is cash plus position at that price, unrealized PnL what the open position gained by then, total return the final minus the initial balance |
| Soundness.OutcomeTable | app/engine/backtesting.py:112-152 | for any account whatever, when a candle sells or buys, how much and for which reason, down to the stop-loss percentage, both limits and the cost of the order |
| Soundness.DecisionTable | app/engine/backtesting.py:112-152 | in a sound account a position is sold if and only if the stop is hit or the strategy says sell, with the stop-loss reason if and only if the stop is hit; a buy happens if and only if it is flat, sized, within both limits and affordable |
| Soundness.PerformKeepsSound | app/engine/backtesting.py:128-176 | one candle keeps the caps, solvency and the value at cost minus realized PnL |
| Soundness.EveryStateIsSound | app/engine/backtesting.py:100-176 | in every reachable state cash is not negative, an entry price is set if and only if a position is open, the position is within both quantity limits, and cash plus position at cost is the initial balance plus realized PnL |
| Soundness.ReturnIsRealizedPlusUnrealized | app/engine/backtesting.py:178-190 | the reported total return is realized plus unrealized PnL, on the empty history too |
| Soundness.StopLossHolds | app/engine/risk.py:117-145 | a position still open after a candle has lost strictly less than the stop-loss percentage of its entry price |
| Soundness.ExitsAreNeverBlocked | app/engine/risk.py:54-66 | in any run a candle closes an open position if and only if the strategy says sell or its close has lost the stop-loss percentage of the entry price or more, whatever the quantity limits |
| TradeLog.LogReplays | app/engine/backtesting.py:132-176 | replaying side, quantity and price of the log in plain products gives every recorded balance and PnL and the running account with its counters; buys and sells alternate, each sell closes the buy before it |
| TradeLog.ReportMatchesLog | app/engine/backtesting.py:192-219 | the reported account is the replay of the reported trades, whose number is two per closed trade plus one if a position is open |
| TradeLog.CandleTradesOnce | app/engine/backtesting.py:123-176 | a candle adds at most one trade, with its close, close time and the reason in force; a buy is of the quantity ordered, a sell of the whole position |
| TradeLog.TradesFollowCandles | app/engine/backtesting.py:100-176 | the log has one entry per trading candle, in strictly increasing candle order, each stemming from its candle |
| MetricsAgreement.CountersMatchLog | app/engine/backtesting.py:155-161 | realized PnL and the closed, winning and losing counts of the loop are those of the sells in the log |
| MetricsAgreement.MetricsAgree | app/engine/backtesting.py:221-267 | win rate is winning over closed trades and in [0,100], worst <= average <= best; the profit factor is missing if and only if trades were won and none lost, zero if none was won, and the run made money if and only if it is missing or above one; all are missing without a closed trade |
| MetricsAgreement.FiguresComeFromLog | app/engine/backtesting.py:230-266 | best and worst are the extreme sell PnLs, average times count is realized PnL, profit factor times gross loss is gross win, the percentage is of the initial balance |
| MetricsAgreement.MetricsReadEverySell | app/engine/backtesting.py:230-231 | the PnLs that the metrics are made of are those of the sells, which are every second entry of the reported log, one per closed trade |
| MetricsAgreement.WinnersAreTheGains | app/engine/backtesting.py:246-249 | the gross win adds up exactly the positive PnLs, each as often as it occurs, and the gross loss the negative ones |
| RunRelations.RecordsOnlyGrow | app/engine/backtesting.py:100-110 | trades and decisions are only appended, one decision per candle |
| RunRelations.DecisionsAreLogged | app/engine/backtesting.py:102-110 | entry i of the decision log is what the strategy answers to the candles up to and including candle i and the position then open |
| RunRelations.NoLookAhead | app/engine/backtesting.py:100-110 | on any extension of the history a run makes the same decisions at the shared candles and its trades are a prefix |
| RunRelations.LimitDichotomy | app/engine/risk.py:75-115 | with a constant order quantity the run either trades nothing and keeps its cash, or equals the run without quantity limits, depending on whether the quantity breaks a limit |
| RunRelations.RefusedQuantityNeverTrades | app/engine/risk.py:85-113 | an order quantity over a limit leaves the account as it opened after every candle |
| RunRelations.AdmittedQuantityIgnoresLimits | app/engine/risk.py:85-115 | an order quantity within the limits makes every state that of the run with the stop-loss only |
| ScaleInvariance.DecideScales | app/engine/risk.py:82-133 | scaling quantities, limits and balances by k scales the outcome of a candle |
| ScaleInvariance.MetricsScale | app/engine/backtesting.py:221-267 | scaled logs have scaled amounts and unchanged percentage, win rate and profit factor |
| ScaleInvariance.BacktestScales | app/engine/backtesting.py:100-267 | the scaled run trades the same sides, prices and times with all amounts multiplied by k, for any strategy that scales |
| ScaleInvariance.ThresholdRunsScale | app/engine/strategy_evaluator.py:22-33 | threshold runs are such runs |
| ThresholdRuns.FollowerOutcome | app/engine/backtesting.py:101-137 | what a threshold run does at each candle in terms of close, cash and limits |
| ThresholdRuns.ThresholdRunsNeverLose | app/engine/strategy_evaluator.py:22-33 | without a stop-loss every closed trade earns at least the quantity times the gap between the levels, none loses, and the realized PnL is at least that per closed trade, with any balance and quantity limits |
| ThresholdRuns.AffordabilityNeverRefuses | app/engine/backtesting.py:132-134 | if the opening balance covers one order at the entry level, flat cash never falls below it and the cost check never refuses a buy |
| ThresholdRuns.RunRefinesSwitch | app/engine/backtesting.py:128-176 | such a run makes exactly the trades of a cash-free two-state switch over the closes |
| ThresholdRuns.FundingIsNeeded | app/engine/backtesting.py:133-134 | without that balance, or over a limit, there is a history on which the switch flips and the run does nothing |
| ThresholdRuns.NoLongerSchedule | app/engine/strategy_evaluator.py:22-33 | no alternating choice of low and high candles is longer than the switch's |
| ThresholdRuns.GreedyIsOptimal | app/engine/backtesting.py:100-176 | closed trades are the maximum number of disjoint low-then-high candle pairs, and the run's own candles attain it |
| GapLoss.ExitAboveFloor | app/engine/risk.py:132-145 | an exit at any candle gains more than minus the loss fraction of the entry cost |
| GapLoss.LossesAreGapBounded | app/engine/backtesting.py:152-176 | with a stop at p percent and closes that never gap down by more than g, every sell's PnL and the total are bounded by 1-(1-g)(1-p/100) of the entry costs |
| CandleMerge.MergeCandleSets | frontend/app.js:7236-7244 | the loop and sort compute `Merged`, which is strictly ascending in time and at each timestamp holds the last candle that existing then incoming have there, for any two candle lists |
| CandleMerge.MergedIsMerge | frontend/app.js:7236-7244 | the function of two candle lists that the loop computes keeps that promise |
| CandleMerge.MergeIsDetermined | frontend/app.js:7232-7244 | that promise admits one result only |
| CandleMerge.IncomingWins | frontend/app.js:7238-7242 | at each timestamp an incoming candle replaces an existing one, and an existing one without a clash stays |
| CandleMerge.OlderCandlesGoInFront | frontend/app.js:7250-7259 | when all incoming candles are older than the oldest loaded one, the loaded candles follow them unchanged, and nothing is added if and only if no incoming candle has a timestamp |
| StableSorting.SortIsStable | frontend/app.js:7232-7234 | the sort the dashboard calls keeps the elements, orders them and keeps the sequence of ties |
| StableSorting.SortIsDetermined | frontend/app.js:7232-7234 | every stable sort of a list by one total preorder gives the same list |
| StableSorting.StableSortKeepsTies | frontend/app.js:4744-4744 | what holds between earlier and later elements holds between ties after sorting |
| CandleWindow.CandleModal.SetCandleWindow | frontend/app.js:7527-7534 | the new state is the wanted window brought into bounds, everything else unchanged |
| CandleWindow.CandleModal.ResetCandleWindow | frontend/app.js:7536-7540 | the new state is the default window with no carried wheel remainder |
| CandleWindow.CandleModal.PanCandleWindowByCandles | frontend/app.js:7542-7552 | the new state is the pan; the results tell whether the shown start moved, and whether older candles are asked for, which is so if and only if it pans left from the left end |
| CandleWindow.CandleModal.PanCandleWindow | frontend/app.js:7554-7562 | the new state is the page pan, with the same two results: older candles are asked for if and only if the page pan leaves the left end |
| CandleWindow.CandleModal.ZoomCandleWindow | frontend/app.js:7569-7581 | the new state is the zoom, outwards for a zero delta |
| CandleWindow.CandleModal.PanCandleWindowByWheel | frontend/app.js:7595-7604 | the new state is the wheel step with its carried remainder, with the same two results for the shift it emits |
| CandleWindow.CandleModal.LoadOlderCandles | frontend/app.js:7309-7351 | with a first timestamp the new candles are the merge, the start is the place of the candle that was first in view, the count is kept and the remainder cleared; without one nothing changes; the number reported is that of the candles added |
| CandleWindow.Normalized | frontend/app.js:7510-7515 | the window is in bounds for every wanted start and count, a window already in bounds is kept, and a missing count shows everything |
| WindowLaws.WindowStaysInBounds | frontend/app.js:7510-7604 | over every sequence of pans, zooms, wheel steps, drags and resets, min(10,total) <= count <= total and 0 <= start <= total-count, for the shown window and for a settled stored one; the carried wheel remainder stays below one candle |
| WindowLaws.ShownIsNearest | frontend/app.js:7510-7520 | the window shown has the allowed width (ten to all, or all of fewer) nearest to the stored one and at that width the nearest start; a missing or zero count asks for all |
| WindowLaws.DragShowsNearest | frontend/app.js:7527-7534 | setting a window stores and shows the allowed one nearest to what is asked for, and changes nothing else |
| WindowLaws.PanMovesExactly | frontend/app.js:7542-7552 | a pan moves by exactly the asked distance, stopped at the ends, at unchanged width, and stores what it shows; nothing changes when everything is shown or it would leave the left end |
| WindowLaws.PanBack | frontend/app.js:7542-7552 | panning back undoes a pan that was not stopped |
| WindowLaws.PanPageMovesHalf | frontend/app.js:7554-7562 | a page pan is a pan by half the window, halves up, per unit of direction |
| WindowLaws.ResetShowsLatest | frontend/app.js:7495-7540 | reset shows and stores the latest candles: all up to 35, 34 up to 60, then 58 percent to the nearest candle; the remainder is dropped |
| WindowLaws.ZoomMoves | frontend/app.js:7569-7581 | zooming narrows to 0.78 times the width or widens by that ratio, to the nearest candle, clamped to min(10,total) and total, strictly unless at that end, where nothing changes; the new start keeps the centre to the nearest half candle, clamped to the loaded candles; the window shown is stored and the remainder dropped |
| WindowLaws.ZoomInReachesMinimum | frontend/app.js:7573-7576 | repeated zooming in reaches min(10,total) |
| WindowLaws.ZoomOutReachesAll | frontend/app.js:7573-7576 | repeated zooming out shows all candles |
| WindowLaws.WheelDistanceInPixels | frontend/app.js:7595-7599 | the distance asked for covers the movement in pixels, with a candle counting for its share of the chart, at least 240 pixels wide, or for ten pixels if that is more |
| WindowLaws.WheelMovesExactly | frontend/app.js:7595-7604 | a wheel event adds the distance its pixels cover to the carried remainder, pans by the whole part of the sum, rounded towards zero and stopped at the ends, and carries the rest, less than one candle |
| WindowLaws.WheelFollowsPixels | frontend/app.js:7583-7604 | with nothing carried the window goes the way of the movement by the whole candles that its pixels cover, as far as the ends allow, and carries the rest |
| WindowLaws.WheelLosesNothing | frontend/app.js:7595-7604 | over any wheel events at fixed width, what they request plus what was carried is exactly what they pan by plus what is carried after, so from nothing carried the two differ by less than one candle; the window's width stays |
| WindowLaws.OlderCandlesKeepTheView | frontend/app.js:7322-7346 | the visible candles stay identical, unclamped, if and only if at least ten candles were loaded or nothing new arrived; otherwise they are the last ones of a wider window |
| WindowLaws.FewCandlesAreNotAnchored | frontend/app.js:7337-7346 | a concrete case, as a refresh with one candle leaves it, in which they do not |
| LoadingLaws.AnchorOfMerge | frontend/app.js:7335-7346 | after any merge the stored start is the place of the timestamp first in view, and at least as many candles follow it as before |
| LoadingLaws.MergeKeepsTheView | frontend/app.js:7322-7346 | for any incoming candles the visible ones stay identical if and only if no incoming timestamp in the visible range changes or adds a candle and the window is at least the minimum width for the merged candles |
| LoadingLaws.LoadKeepsOrder | frontend/app.js:7331-7351 | a load leaves the candles strictly ascending, loses no timestamp, and keeps the wheel remainder below one candle |
| LoadingLaws.EventsKeepCandles | frontend/app.js:7309-7604 | over any interleaving of gestures and loads the candles stay strictly ascending, no timestamp is lost, the shown window is in bounds, the remainder is below one candle; with responses as old as requested, the candles loaded at the start stay the last ones, unchanged |
| AxisTicks.TickSpacing | frontend/app.js:7444-7446 | neighbouring ticks are the rounded-down spacing apart or one more |
| AxisTicks.CandleTimeTickIndexes | frontend/app.js:7440-7448 | for two or more ticks over n >= 2 candles, min(count,n) strictly increasing tick indexes from 0 to n-1, each nearest to its evenly spaced position, halves up, with gaps that differ by at most one; also the single index, the empty list and the division of zero by zero of the other inputs |
| Ranking.RankingIsTotalPreorder | frontend/app.js:3048-3068 | the comparison is a total preorder whose sign flips with its arguments |
| Ranking.RankingIsLexicographic | frontend/app.js:3012-3068 | a run ranks first if and only if its percentage, at a level percentage its return, at level figures its time is higher, as numbers, where null is level with zero and anything that is no number is below |
| Ranking.BetterFollowsComparator | frontend/app.js:3023-3044 | the fold replaces its best run if and only if the comparison says so |
| Ranking.FoldIsHeadOfSort | frontend/app.js:3022-3046 | the fold returns the head of every stable sort by the comparison |
| Ranking.HigherPercentWins | frontend/app.js:3012-3068 | the higher of two percentages ranks strictly first and the fold selects it in either sequence, whatever the returns and times |
| Ranking.HigherReturnWins | frontend/app.js:3030-3062 | the same for the higher return at level percentages |
| Ranking.NewerWins | frontend/app.js:3017-3067 | the same for the newer time at level figures |
| Ranking.ComparablePercentWins | frontend/app.js:3026-3053 | the same for a percentage that is a number or null over one that is absent or no number |
| Ranking.RankedRunsDescend | frontend/app.js:3048-3068 | in every stable sort by the comparison percentages descend, returns at level percentages, and times at level figures |
| Ranking.IncomparableRunsComeLast | frontend/app.js:3048-3062 | in every stable sort by the comparison the runs without a comparable percentage are a suffix |
| Ranking.MissingPercentRanksAsZero | frontend/app.js:3012-3068 | a missing percentage, stored as null, ranks after a known one if and only if that is positive, or is zero and that run has the higher return, or a level return and is newer |
| Ranking.MissingReturnRanksAsZero | frontend/app.js:3012-3068 | at level percentages a missing return, stored as null, ranks after a known one if and only if that is positive, or is zero and that run is newer |
| Ranking.MissingPercentBeatsLoss | frontend/app.js:3022-3068 | a run without a percentage ranks before one that lost money, and the fold selects it in either sequence |
| Ranking.MissingReturnBeatsLoss | frontend/app.js:3022-3068 | at level percentages a run without a return ranks before one with a negative return, and the fold selects it in either sequence |
| Ranking.BacktestComparisonRows | frontend/app.js:4723-4745 | the loop and sort compute `ComparisonRows` |
| Ranking.GroupsSplitHistory | frontend/app.js:4724-4729 | one nonempty group per named strategy with all its runs in history order, groups in sequence of first appearance |
| Ranking.RunsKeepHistoryOrder | frontend/app.js:4724-4729 | the runs of a strategy are those at exactly the places of the history that name it, in their order |
| Ranking.FirstRunIsFirst | frontend/app.js:4724-4729 | the place by which groups are ordered is the first one that names the strategy |
| Ranking.LatestIsFirstNewest | frontend/app.js:4715-4721 | the latest run of a strategy is the newest one, and the earliest listed among equally new ones |
| Ranking.RowsPartitionHistory | frontend/app.js:4723-4745 | rows and named strategies correspond one to one; each row has all runs of its strategy in history order, the best run that the fold selects, which none of them beats, and its latest run; rows are in ranking order |
| Ranking.RowsDescendByBestRun | frontend/app.js:4744-4744 | the best run of an earlier row ranks no later than that of a later row |
| Ranking.EqualRowsKeepHistoryOrder | frontend/app.js:4744-4744 | rows that rank equal stay in sequence of their strategies' first appearance |
| Ranking.FirstRowIsUnbeaten | frontend/app.js:4723-4745 | no run of the history that names a strategy beats the best run of the first row |

## Left out

- Finite precision: the 28-digit context of `Decimal` and binary floating point in the dashboard.
- Symbol, timeframe, strategy type and source labels, and `from_profile`, which only copies fields.
- The indicator strategies (moving average, RSI, Bollinger bands, MACD) and parameter parsing: a run
  takes any strategy, and nothing here depends on their formulas.
- The details dictionaries and the wording of reasons; a trade records whether its reason is the
  stop-loss or the strategy's own.
- The bot runner, paper and live execution services, repositories, migrations, command line and API.
- Everything in the dashboard script but the functions named above: drawing, fetching, forms,
  translations, hover, and the conversion of pointer movement to a drag target.
- The interleaving of `loadOlderCandles` with other events while its request is in flight: loading
  flags and request numbers are not modelled, and the merge is atomic.
- CandleWindow.CandleModal.LoadOlderCandles: does not model the messages shown, because only the
  reported count depends on the candles.
- Ranking.RowsPartitionHistory: does not model the strategy's display data that a row also carries.
