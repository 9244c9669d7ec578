/**
 * Ranking saved backtest runs in the dashboard (frontend/app.js): the comparison of two runs, the
 * fold that selects the best one, and the comparison rows, one per strategy.
 */
module Ranking {
  import opened Optional
  import opened Searching
  import opened StableSorting

  /** A field of a JSON reply: absent, null, a number (or text of one), or text that is no number. */
  datatype JsValue = Undefined | Null | Numeric(value: real) | NotANumber

  /** A saved run. `strategyId` is the identifier as text; `createdAt` the parsed time, if it parses. */
  datatype HistoryItem = HistoryItem(
    id: int,
    strategyId: Option<string>,
    totalReturnPercent: JsValue,
    totalReturn: JsValue,
    createdAt: Option<int>
  )

  datatype Group = Group(strategyId: string, runs: seq<HistoryItem>)

  datatype Row = Row(
    strategyId: string,
    runs: seq<HistoryItem>,
    bestRun: Option<HistoryItem>,
    latestRun: Option<HistoryItem>
  )

  /** `Number(value)` when finite. JavaScript's `Number(null)` is 0. */
  function ComparableNumber(value: JsValue): Option<real> {
    match value
    case Undefined => None
    case Null => Some(0.0)
    case Numeric(x) => Some(x)
    case NotANumber => None
  }

  function ComparableTime(time: Option<int>): int {
    if time.Some? then time.value else 0
  }

  function Percent(item: HistoryItem): Option<real> {
    ComparableNumber(item.totalReturnPercent)
  }

  function Return(item: HistoryItem): Option<real> {
    ComparableNumber(item.totalReturn)
  }

  /** The comparator: negative when `left` ranks first. */
  function CompareBacktestRuns(left: HistoryItem, right: HistoryItem): real {
    if Percent(left) != Percent(right) then
      if Percent(left).None? then 1.0
      else if Percent(right).None? then -1.0
      else Percent(right).value - Percent(left).value
    else if Return(left) != Return(right) then
      if Return(left).None? then 1.0
      else if Return(right).None? then -1.0
      else Return(right).value - Return(left).value
    else
      (ComparableTime(right.createdAt) - ComparableTime(left.createdAt)) as real
  }

  predicate RanksNoLater(left: HistoryItem, right: HistoryItem) {
    CompareBacktestRuns(left, right) <= 0.0
  }

  /** One step of the reduction: keep `best` unless `item` is strictly better. */
  function Better(best: HistoryItem, item: HistoryItem): HistoryItem {
    if Percent(item) != Percent(best) then
      if Percent(item).None? then best
      else if Percent(best).None? then item
      else if Percent(item).value > Percent(best).value then item else best
    else if Return(item) != Return(best) then
      if Return(item).None? then best
      else if Return(best).None? then item
      else if Return(item).value > Return(best).value then item else best
    else
      if ComparableTime(item.createdAt) > ComparableTime(best.createdAt) then item else best
  }

  /** The reduction over all items, first to last. */
  function SelectBestRecentBacktest(items: seq<HistoryItem>): Option<HistoryItem> {
    if items == [] then None
    else
      var best := SelectBestRecentBacktest(items[..|items| - 1]);
      Some(if best.None? then items[|items| - 1] else Better(best.value, items[|items| - 1]))
  }

  predicate NoOlder(left: HistoryItem, right: HistoryItem) {
    ComparableTime(right.createdAt) <= ComparableTime(left.createdAt)
  }

  function LatestBacktestRun(items: seq<HistoryItem>): Option<HistoryItem> {
    var sorted := StableSort(NoOlder, items);
    if sorted == [] then None else Some(sorted[0])
  }

  // ----- the comparator is an order, and the fold agrees with it -----

  /** The comparator is a total preorder, and swapping its arguments swaps its sign. */
  lemma RankingIsTotalPreorder()
    ensures TotalPreorder(RanksNoLater)
    ensures forall x, y :: CompareBacktestRuns(x, y) < 0.0 <==> CompareBacktestRuns(y, x) > 0.0
  {
  }

  lemma TimeIsTotalPreorder()
    ensures TotalPreorder(NoOlder)
  {
  }

  /** The higher value; null is level with zero, and anything that is no number is below all of these. */
  predicate Above(x: JsValue, y: JsValue) {
    match x
    case Numeric(a) => if y.Numeric? then a > y.value else y.Null? ==> a > 0.0
    case Null => if y.Numeric? then 0.0 > y.value else !y.Null?
    case Undefined => false
    case NotANumber => false
  }

  /** Neither value is the higher. */
  predicate Level(x: JsValue, y: JsValue) {
    !Above(x, y) && !Above(y, x)
  }

  /** The later time; a missing one is the epoch. */
  predicate Later(x: Option<int>, y: Option<int>) {
    match (x, y)
    case (Some(a), Some(b)) => a > b
    case (Some(a), None) => a > 0
    case (None, Some(b)) => 0 > b
    case (None, None) => false
  }

  /** The ranking is by percentage, then by return, then by time: higher and newer first. */
  lemma RankingIsLexicographic(left: HistoryItem, right: HistoryItem)
    ensures CompareBacktestRuns(left, right) < 0.0 <==>
              || Above(left.totalReturnPercent, right.totalReturnPercent)
              || (Level(left.totalReturnPercent, right.totalReturnPercent)
                  && Above(left.totalReturn, right.totalReturn))
              || (Level(left.totalReturnPercent, right.totalReturnPercent) && Level(left.totalReturn, right.totalReturn)
                  && Later(left.createdAt, right.createdAt))
  {
  }

  /** The two spellings of the order agree: the fold replaces exactly when the comparator is positive. */
  lemma BetterFollowsComparator(best: HistoryItem, item: HistoryItem)
    ensures Better(best, item) == if CompareBacktestRuns(best, item) > 0.0 then item else best
  {
  }

  /** The fold returns the first of the best items. */
  lemma {:induction false} FoldFindsFirstBest(items: seq<HistoryItem>) returns (i: nat)
    requires items != []
    ensures i < |items| && SelectBestRecentBacktest(items) == Some(items[i])
    ensures forall j :: 0 <= j < |items| ==> RanksNoLater(items[i], items[j])
    ensures forall j :: 0 <= j < i ==> !RanksNoLater(items[j], items[i])
  {
    RankingIsTotalPreorder();
    hide CompareBacktestRuns, Better;
    var n := |items| - 1;
    if n == 0 {
      i := 0;
    } else {
      i := FoldFindsFirstBest(items[..n]);
      BetterFollowsComparator(items[i], items[n]);
      if !RanksNoLater(items[i], items[n]) {
        i := n;
      }
    }
  }

  /** The fold returns the head of the stable sort by the comparator, whatever sorts stably. */
  lemma FoldIsHeadOfSort(items: seq<HistoryItem>, sorted: seq<HistoryItem>)
    requires IsStableSort(RanksNoLater, items, sorted)
    ensures SelectBestRecentBacktest(items) == if sorted == [] then None else Some(sorted[0])
  {
    RankingIsTotalPreorder();
    hide RanksNoLater;
    if items == [] {
      SortKeepsAscending(RanksNoLater, [], sorted);
    } else {
      var i := FoldFindsFirstBest(items);
      HeadIsFirstLeast(RanksNoLater, items, sorted, i);
    }
  }

  // ----- what ranks first -----

  /** `first` ranks strictly before `second`, and the fold selects it in either sequence. */
  ghost predicate Wins(first: HistoryItem, second: HistoryItem) {
    && CompareBacktestRuns(first, second) < 0.0 < CompareBacktestRuns(second, first)
    && SelectBestRecentBacktest([first, second]) == SelectBestRecentBacktest([second, first]) == Some(first)
  }

  lemma FirstRankedWins(first: HistoryItem, second: HistoryItem)
    requires CompareBacktestRuns(first, second) < 0.0
    ensures Wins(first, second)
  {
    BestOfTwo(first, second);
    BestOfTwo(second, first);
  }

  lemma BestOfTwo(first: HistoryItem, second: HistoryItem)
    ensures SelectBestRecentBacktest([first, second]) == Some(Better(first, second))
  {
    assert [first, second][..1] == [first];
    assert SelectBestRecentBacktest([first]) == Some(first);
  }

  /** Of two numbers the higher percentage wins, whatever the returns and times. */
  lemma HigherPercentWins(high: HistoryItem, low: HistoryItem)
    requires high.totalReturnPercent.Numeric? && low.totalReturnPercent.Numeric?
    requires high.totalReturnPercent.value > low.totalReturnPercent.value
    ensures Wins(high, low)
  {
    FirstRankedWins(high, low);
  }

  /** Among level percentages the higher return wins, whatever the times. */
  lemma HigherReturnWins(high: HistoryItem, low: HistoryItem)
    requires Level(high.totalReturnPercent, low.totalReturnPercent)
    requires high.totalReturn.Numeric? && low.totalReturn.Numeric?
    requires high.totalReturn.value > low.totalReturn.value
    ensures Wins(high, low)
  {
    FirstRankedWins(high, low);
  }

  /** Among level figures the newer run wins. */
  lemma NewerWins(newer: HistoryItem, older: HistoryItem)
    requires Level(newer.totalReturnPercent, older.totalReturnPercent) && Level(newer.totalReturn, older.totalReturn)
    requires newer.createdAt.Some? && older.createdAt.Some? && newer.createdAt.value > older.createdAt.value
    ensures Wins(newer, older)
  {
    FirstRankedWins(newer, older);
  }

  /** A percentage that is a number or null wins over one that is absent or no number. */
  lemma ComparablePercentWins(known: HistoryItem, unknown: HistoryItem)
    requires known.totalReturnPercent.Numeric? || known.totalReturnPercent.Null?
    requires unknown.totalReturnPercent.Undefined? || unknown.totalReturnPercent.NotANumber?
    ensures Wins(known, unknown)
  {
    FirstRankedWins(known, unknown);
  }

  /**
   * Every stable sort by the comparator descends: later runs have no higher percentage, no higher
   * return at a level percentage, and no later time at level figures.
   */
  lemma RankedRunsDescend(items: seq<HistoryItem>, sorted: seq<HistoryItem>, i: nat, j: nat)
    requires IsStableSort(RanksNoLater, items, sorted) && i < j < |sorted|
    ensures var x, y := sorted[i], sorted[j];
            && !Above(y.totalReturnPercent, x.totalReturnPercent)
            && (Level(x.totalReturnPercent, y.totalReturnPercent) ==> !Above(y.totalReturn, x.totalReturn))
            && (Level(x.totalReturnPercent, y.totalReturnPercent) && Level(x.totalReturn, y.totalReturn) ==>
                  !Later(y.createdAt, x.createdAt))
  {
    assert RanksNoLater(sorted[i], sorted[j]);
  }

  /**
   * The runs without a comparable percentage are a suffix of every stable sort by the comparator:
   * none of them comes before a run that has one.
   */
  lemma IncomparableRunsComeLast(items: seq<HistoryItem>, sorted: seq<HistoryItem>, i: nat, j: nat)
    requires IsStableSort(RanksNoLater, items, sorted) && i < j < |sorted|
    requires sorted[i].totalReturnPercent.Undefined? || sorted[i].totalReturnPercent.NotANumber?
    ensures sorted[j].totalReturnPercent.Undefined? || sorted[j].totalReturnPercent.NotANumber?
  {
    RankedRunsDescend(items, sorted, i, j);
  }

  // ----- missing values -----

  /** What the history normaliser makes of a field that the reply lacks. */
  function Normalized(raw: JsValue): JsValue {
    if raw == Undefined then Null else raw
  }

  /**
   * A saved run without a percentage does not rank last: the normaliser turns the missing value into
   * null, which compares as zero. It ranks strictly after a run with a percentage exactly when that
   * percentage is positive, or is zero and that run has the higher return, or a level one and is newer.
   */
  lemma MissingPercentRanksAsZero(known: HistoryItem, missing: HistoryItem)
    requires known.totalReturnPercent.Numeric?
    requires missing.totalReturnPercent == Normalized(Undefined)
    ensures var p := known.totalReturnPercent.value;
            CompareBacktestRuns(known, missing) < 0.0 <==>
              || p > 0.0
              || (p == 0.0 && Above(known.totalReturn, missing.totalReturn))
              || (p == 0.0 && Level(known.totalReturn, missing.totalReturn)
                  && Later(known.createdAt, missing.createdAt))
  {
  }

  /**
   * The same for a missing return among runs of level percentage: it ranks strictly after a run with
   * a return exactly when that return is positive, or is zero and that run is newer.
   */
  lemma MissingReturnRanksAsZero(known: HistoryItem, missing: HistoryItem)
    requires Level(known.totalReturnPercent, missing.totalReturnPercent)
    requires known.totalReturn.Numeric?
    requires missing.totalReturn == Normalized(Undefined)
    ensures var r := known.totalReturn.value;
            CompareBacktestRuns(known, missing) < 0.0 <==>
              r > 0.0 || (r == 0.0 && Later(known.createdAt, missing.createdAt))
  {
  }

  /** So a run with no percentage wins over one that lost money. */
  lemma MissingPercentBeatsLoss(loss: HistoryItem, missing: HistoryItem)
    requires loss.totalReturnPercent.Numeric? && loss.totalReturnPercent.value < 0.0
    requires missing.totalReturnPercent == Normalized(Undefined)
    ensures Wins(missing, loss)
  {
    FirstRankedWins(missing, loss);
  }

  /** And among level percentages a run with no return wins over one with a negative return. */
  lemma MissingReturnBeatsLoss(loss: HistoryItem, missing: HistoryItem)
    requires Level(loss.totalReturnPercent, missing.totalReturnPercent)
    requires loss.totalReturn.Numeric? && loss.totalReturn.value < 0.0
    requires missing.totalReturn == Normalized(Undefined)
    ensures Wins(missing, loss)
  {
    FirstRankedWins(missing, loss);
  }

  // ----- the comparison rows -----

  /** The item is listed: it names a strategy. */
  predicate Listed(item: HistoryItem) {
    item.strategyId.Some? && item.strategyId.value != ""
  }

  /** The runs of one strategy, in history order. */
  function RunsOf(history: seq<HistoryItem>, strategyId: string): seq<HistoryItem> {
    if history == [] then []
    else
      var n := |history| - 1;
      RunsOf(history[..n], strategyId)
      + if Listed(history[n]) && history[n].strategyId.value == strategyId then [history[n]] else []
  }

  /** The position of a strategy's group, or the number of groups. */
  function GroupFor(groups: seq<Group>, strategyId: string): nat {
    IndexWhere(groups, (g: Group) => g.strategyId == strategyId)
  }

  function AddRun(groups: seq<Group>, item: HistoryItem): seq<Group>
    requires Listed(item)
  {
    var k := GroupFor(groups, item.strategyId.value);
    if k < |groups| then groups[k := Group(groups[k].strategyId, groups[k].runs + [item])]
    else groups + [Group(item.strategyId.value, [item])]
  }

  /** The map from strategies to runs after the whole history, in insertion order. */
  function GroupsOf(history: seq<HistoryItem>): seq<Group> {
    if history == [] then []
    else
      var n := |history| - 1;
      var groups := GroupsOf(history[..n]);
      if Listed(history[n]) then AddRun(groups, history[n]) else groups
  }

  function RowOf(group: Group): Row {
    Row(group.strategyId, group.runs, SelectBestRecentBacktest(group.runs), LatestBacktestRun(group.runs))
  }

  function RowsOf(groups: seq<Group>): (rows: seq<Row>)
    ensures |rows| == |groups| && forall k :: 0 <= k < |rows| ==> rows[k] == RowOf(groups[k])
  {
    seq(|groups|, k requires 0 <= k < |groups| => RowOf(groups[k]))
  }

  /** Rows by their best run; a group is never empty, so a row always has one. */
  predicate RowRanksNoLater(left: Row, right: Row) {
    if left.bestRun.None? || right.bestRun.None? then left.bestRun.Some? || right.bestRun.None?
    else RanksNoLater(left.bestRun.value, right.bestRun.value)
  }

  function ComparisonRows(history: seq<HistoryItem>): seq<Row> {
    StableSort(RowRanksNoLater, RowsOf(GroupsOf(history)))
  }

  /** Group the history by strategy, make a row of each group, and sort the rows by their best runs. */
  method BacktestComparisonRows(history: seq<HistoryItem>) returns (rows: seq<Row>)
    ensures rows == ComparisonRows(history)
  {
    var groups: seq<Group> := [];
    for i := 0 to |history|
      invariant groups == GroupsOf(history[..i])
    {
      assert history[..i + 1][..i] == history[..i];
      if !Listed(history[i]) {
        continue;
      }
      groups := AddRun(groups, history[i]);
    }
    assert history[..|history|] == history;
    rows := StableSort(RowRanksNoLater, RowsOf(groups));
  }

  // ----- the groups split the history -----

  /** The place of the strategy's first run, or the length of the history. */
  function FirstRun(history: seq<HistoryItem>, strategyId: string): nat {
    if history == [] then 0
    else
      var n := |history| - 1;
      var before := FirstRun(history[..n], strategyId);
      if before < n || (Listed(history[n]) && history[n].strategyId.value == strategyId) then before else |history|
  }

  /** One nonempty group for each listed strategy, with all its runs, in sequence of their first runs. */
  ghost predicate IsGrouping(history: seq<HistoryItem>, groups: seq<Group>) {
    && (forall k :: 0 <= k < |groups| ==>
          groups[k].strategyId != "" && groups[k].runs != [] && groups[k].runs == RunsOf(history, groups[k].strategyId))
    && (forall k :: 0 <= k < |groups| ==> FirstRun(history, groups[k].strategyId) < |history|)
    && (forall j, k :: 0 <= j < k < |groups| ==>
          FirstRun(history, groups[j].strategyId) < FirstRun(history, groups[k].strategyId))
    && (forall i :: 0 <= i < |history| && Listed(history[i]) ==>
          exists k :: 0 <= k < |groups| && groups[k].strategyId == history[i].strategyId.value)
  }

  lemma AppendRun(history: seq<HistoryItem>, item: HistoryItem, strategyId: string)
    ensures var mine := Listed(item) && item.strategyId.value == strategyId;
            && RunsOf(history + [item], strategyId) ==
                 (if mine then RunsOf(history, strategyId) + [item] else RunsOf(history, strategyId))
            && FirstRun(history + [item], strategyId) ==
                 if FirstRun(history, strategyId) < |history| || mine then FirstRun(history, strategyId)
                 else |history| + 1
  {
  }

  lemma {:induction false} UngroupedHasNoRuns(history: seq<HistoryItem>, strategyId: string)
    requires forall i :: 0 <= i < |history| && Listed(history[i]) ==> history[i].strategyId.value != strategyId
    ensures RunsOf(history, strategyId) == [] && FirstRun(history, strategyId) == |history|
  {
    if history != [] {
      UngroupedHasNoRuns(history[..|history| - 1], strategyId);
    }
  }

  lemma UnlistedKeepsGrouping(history: seq<HistoryItem>, groups: seq<Group>, item: HistoryItem)
    requires IsGrouping(history, groups) && !Listed(item)
    ensures IsGrouping(history + [item], groups)
  {
    forall k | 0 <= k < |groups|
      ensures groups[k].runs == RunsOf(history + [item], groups[k].strategyId)
      ensures FirstRun(history + [item], groups[k].strategyId) == FirstRun(history, groups[k].strategyId)
    {
      AppendRun(history, item, groups[k].strategyId);
    }
  }

  lemma AddRunKeepsGrouping(history: seq<HistoryItem>, groups: seq<Group>, item: HistoryItem)
    requires IsGrouping(history, groups) && Listed(item)
    ensures IsGrouping(history + [item], AddRun(groups, item))
  {
    hide RunsOf, FirstRun;
    var all, next, id := history + [item], AddRun(groups, item), item.strategyId.value;
    var at := GroupFor(groups, id);
    if at == |groups| {
      UngroupedHasNoRuns(history, id);
    }
    forall k | 0 <= k < |next|
      ensures next[k].strategyId != "" && next[k].runs != [] && next[k].runs == RunsOf(all, next[k].strategyId)
      ensures FirstRun(all, next[k].strategyId) == FirstRun(history, next[k].strategyId) < |all|
    {
      AppendRun(history, item, next[k].strategyId);
    }
    forall i | 0 <= i < |all| && Listed(all[i])
      ensures exists k :: 0 <= k < |next| && next[k].strategyId == all[i].strategyId.value
    {
      if i == |history| {
        assert next[at].strategyId == id;
      } else {
        var k :| 0 <= k < |groups| && groups[k].strategyId == history[i].strategyId.value;
        assert next[k].strategyId == groups[k].strategyId;
      }
    }
  }

  lemma {:induction false} GroupsSplitHistory(history: seq<HistoryItem>)
    ensures IsGrouping(history, GroupsOf(history))
  {
    hide IsGrouping, AddRun;
    if history == [] {
      assert IsGrouping([], []) by { EmptyGrouping(); }
    } else {
      var n := |history| - 1;
      GroupsSplitHistory(history[..n]);
      assert history == history[..n] + [history[n]];
      if Listed(history[n]) {
        AddRunKeepsGrouping(history[..n], GroupsOf(history[..n]), history[n]);
      } else {
        UnlistedKeepsGrouping(history[..n], GroupsOf(history[..n]), history[n]);
      }
    }
  }

  lemma EmptyGrouping()
    ensures IsGrouping([], [])
  {
  }

  lemma {:induction false} RunsAreMembers(history: seq<HistoryItem>, strategyId: string)
    ensures forall item :: item in RunsOf(history, strategyId) <==>
              item in history && Listed(item) && item.strategyId.value == strategyId
  {
    if history != [] {
      var n := |history| - 1;
      RunsAreMembers(history[..n], strategyId);
      assert history == history[..n] + [history[n]];
    }
  }

  /** The run names this strategy. */
  predicate Names(item: HistoryItem, strategyId: string) {
    item.strategyId == Some(strategyId) && strategyId != ""
  }

  /** `at` lists exactly the places of the history that name the strategy, in order. */
  ghost predicate ArePlaces(history: seq<HistoryItem>, strategyId: string, at: seq<nat>) {
    && (forall k :: 0 <= k < |at| ==> at[k] < |history|)
    && (forall j, k :: 0 <= j < k < |at| ==> at[j] < at[k])
    && (forall i :: 0 <= i < |history| ==> (Names(history[i], strategyId) <==> i in at))
  }

  lemma PlacesGrow(history: seq<HistoryItem>, item: HistoryItem, strategyId: string, at: seq<nat>)
    requires ArePlaces(history, strategyId, at)
    ensures ArePlaces(history + [item], strategyId, if Names(item, strategyId) then at + [|history|] else at)
  {
    var all, next := history + [item], if Names(item, strategyId) then at + [|history|] else at;
    forall i | 0 <= i < |all| ensures Names(all[i], strategyId) <==> i in next {
      if i < |history| {
        assert i in next <==> i in at;
      } else {
        assert |history| !in at;
      }
    }
  }

  /** `picks` are the elements of the history at the places `at`. */
  ghost predicate AreAt(history: seq<HistoryItem>, at: seq<nat>, picks: seq<HistoryItem>) {
    |at| == |picks| && forall k :: 0 <= k < |at| ==> at[k] < |history| && picks[k] == history[at[k]]
  }

  lemma PicksGrow(history: seq<HistoryItem>, item: HistoryItem, at: seq<nat>, picks: seq<HistoryItem>)
    requires AreAt(history, at, picks)
    ensures AreAt(history + [item], at, picks)
    ensures AreAt(history + [item], at + [|history|], picks + [item])
  {
  }

  lemma NextRunKeepsOrder(history: seq<HistoryItem>, item: HistoryItem, strategyId: string, before: seq<nat>)
    returns (at: seq<nat>)
    requires ArePlaces(history, strategyId, before) && AreAt(history, before, RunsOf(history, strategyId))
    ensures ArePlaces(history + [item], strategyId, at)
    ensures AreAt(history + [item], at, RunsOf(history + [item], strategyId))
  {
    AppendRun(history, item, strategyId);
    assert Names(item, strategyId) <==> Listed(item) && item.strategyId.value == strategyId;
    hide *;
    PlacesGrow(history, item, strategyId, before);
    PicksGrow(history, item, before, RunsOf(history, strategyId));
    at := if Names(item, strategyId) then before + [|history|] else before;
  }

  /** The runs of a strategy are those at the places of the history that name it, in their order. */
  lemma {:induction false} RunsKeepHistoryOrder(history: seq<HistoryItem>, strategyId: string) returns (at: seq<nat>)
    ensures ArePlaces(history, strategyId, at)
    ensures AreAt(history, at, RunsOf(history, strategyId))
  {
    if history == [] {
      return [];
    }
    hide *;
    var rest, last := history[..|history| - 1], history[|history| - 1];
    assert history == rest + [last];
    at := RunsKeepHistoryOrder(rest, strategyId);
    at := NextRunKeepsOrder(rest, last, strategyId, at);
  }

  /** `FirstRun` is the first place that names the strategy, if there is one. */
  lemma {:induction false} FirstRunIsFirst(history: seq<HistoryItem>, strategyId: string)
    ensures var first := FirstRun(history, strategyId);
            && first <= |history|
            && (first < |history| ==> Names(history[first], strategyId))
            && (forall i :: 0 <= i < first ==> !Names(history[i], strategyId))
  {
    if history != [] {
      FirstRunIsFirst(history[..|history| - 1], strategyId);
    }
  }

  // ----- what the rows mean -----

  lemma RowOrderIsTotalPreorder()
    ensures TotalPreorder(RowRanksNoLater)
  {
  }

  /** The row of a strategy: all its runs in history order, the first best one and the first newest. */
  ghost predicate IsRowOf(history: seq<HistoryItem>, row: Row) {
    && row.runs == RunsOf(history, row.strategyId)
    && row.bestRun == SelectBestRecentBacktest(row.runs)
    && row.latestRun == LatestBacktestRun(row.runs)
    && row.bestRun.Some? && row.latestRun.Some?
    && row.bestRun.value in row.runs && row.latestRun.value in row.runs
    && (forall item :: item in row.runs ==> RanksNoLater(row.bestRun.value, item))
    && (forall item :: item in row.runs ==> !Later(item.createdAt, row.latestRun.value.createdAt))
  }

  lemma GroupMakesRow(history: seq<HistoryItem>, group: Group)
    requires group.runs != [] && group.runs == RunsOf(history, group.strategyId)
    ensures IsRowOf(history, RowOf(group))
  {
    hide RanksNoLater, RunsOf;
    var i := FoldFindsFirstBest(group.runs);
    var k := LatestIsFirstNewest(group.runs);
  }

  /** Item `i` is the newest, and the earliest listed of those that are equally new. */
  ghost predicate IsFirstNewest(items: seq<HistoryItem>, i: nat)
    requires i < |items|
  {
    && (forall j :: 0 <= j < |items| ==> !Later(items[j].createdAt, items[i].createdAt))
    && (forall j :: 0 <= j < i ==> Later(items[i].createdAt, items[j].createdAt))
  }

  lemma {:induction false} FirstNewestExists(items: seq<HistoryItem>) returns (i: nat)
    requires items != []
    ensures i < |items| && IsFirstNewest(items, i)
  {
    var n := |items| - 1;
    if n == 0 {
      i := 0;
    } else {
      i := FirstNewestExists(items[..n]);
      if Later(items[n].createdAt, items[i].createdAt) {
        i := n;
      }
    }
  }

  /** The latest run is the newest, and among equally new runs the one listed first. */
  lemma LatestIsFirstNewest(items: seq<HistoryItem>) returns (i: nat)
    requires items != []
    ensures i < |items| && IsFirstNewest(items, i) && LatestBacktestRun(items) == Some(items[i])
  {
    TimeIsTotalPreorder();
    SortIsStable(NoOlder, items);
    i := FirstNewestExists(items);
    HeadIsFirstLeast(NoOlder, items, StableSort(NoOlder, items), i);
  }

  /**
   * The rows are exactly the strategies of the history: every row is the row of its strategy, no two
   * rows share one, and every run that names a strategy is in the row of that strategy. They are in
   * ranking order.
   */
  lemma RowsPartitionHistory(history: seq<HistoryItem>)
    ensures var rows := ComparisonRows(history);
            && (forall k :: 0 <= k < |rows| ==> rows[k].strategyId != "" && IsRowOf(history, rows[k]))
            && (forall j, k :: 0 <= j < k < |rows| ==> rows[j].strategyId != rows[k].strategyId)
            && (forall i, strategyId :: 0 <= i < |history| && Names(history[i], strategyId) ==>
                  exists k :: 0 <= k < |rows| && rows[k].strategyId == strategyId && history[i] in rows[k].runs)
            && Ascending(RowRanksNoLater, rows)
  {
    hide RunsOf, FirstRun, IsRowOf, RowRanksNoLater, RowOf;
    var groups, unsorted, rows := GroupsOf(history), RowsOf(GroupsOf(history)), ComparisonRows(history);
    GroupsSplitHistory(history);
    RowOrderIsTotalPreorder();
    SortIsStable(RowRanksNoLater, unsorted);
    RowsKeepGroups(history, groups);
    RowsSurvivePermutation(unsorted, rows);
    forall i, strategyId | 0 <= i < |history| && Names(history[i], strategyId)
      ensures exists k :: 0 <= k < |rows| && rows[k].strategyId == strategyId && history[i] in rows[k].runs
    {
      var g :| 0 <= g < |groups| && groups[g].strategyId == history[i].strategyId.value;
      RunsAreMembers(history, groups[g].strategyId);
      assert unsorted[g] in rows;
      var k :| 0 <= k < |rows| && rows[k] == unsorted[g];
    }
    forall k | 0 <= k < |rows| ensures rows[k].strategyId != "" && IsRowOf(history, rows[k]) {
      assert rows[k] in unsorted;
    }
  }

  lemma RowsKeepGroups(history: seq<HistoryItem>, groups: seq<Group>)
    requires IsGrouping(history, groups)
    ensures var rows := RowsOf(groups);
            && (forall k :: 0 <= k < |rows| ==>
                  rows[k].strategyId == groups[k].strategyId != "" && rows[k].runs == groups[k].runs
                  && IsRowOf(history, rows[k]))
            && (forall j, k :: 0 <= j < k < |rows| ==> rows[j].strategyId != rows[k].strategyId)
  {
    hide RunsOf, FirstRun, IsRowOf;
    forall k | 0 <= k < |groups| ensures IsRowOf(history, RowOf(groups[k])) {
      GroupMakesRow(history, groups[k]);
    }
  }

  lemma RowsSurvivePermutation(s: seq<Row>, r: seq<Row>)
    requires multiset(r) == multiset(s)
    requires forall j, k :: 0 <= j < k < |s| ==> s[j].strategyId != s[k].strategyId
    ensures forall row :: row in r <==> row in s
    ensures forall j, k :: 0 <= j < k < |r| ==> r[j].strategyId != r[k].strategyId
  {
    PermutationKeepsMembers(s, r);
    assert forall k :: 0 <= k < |r| ==> r[k] in s;
  }

  /** Rows that rank equal come in the sequence in which their strategies first appear in the history. */
  lemma EqualRowsKeepHistoryOrder(history: seq<HistoryItem>, j: nat, k: nat)
    requires j < k < |ComparisonRows(history)|
    requires RowRanksNoLater(ComparisonRows(history)[k], ComparisonRows(history)[j])
    ensures FirstRun(history, ComparisonRows(history)[j].strategyId)
          < FirstRun(history, ComparisonRows(history)[k].strategyId)
  {
    hide RunsOf, FirstRun, RowRanksNoLater;
    var groups, unsorted := GroupsOf(history), RowsOf(GroupsOf(history));
    var earlier := (x: Row, y: Row) => FirstRun(history, x.strategyId) < FirstRun(history, y.strategyId);
    GroupsSplitHistory(history);
    RowOrderIsTotalPreorder();
    SortIsStable(RowRanksNoLater, unsorted);
    assert Pairwise(earlier, unsorted);
    StableSortKeepsTies(RowRanksNoLater, earlier, unsorted, ComparisonRows(history), j, k);
  }

  /** An earlier row's best run ranks no later than a later row's. */
  lemma RowsDescendByBestRun(history: seq<HistoryItem>, j: nat, k: nat)
    requires j < k < |ComparisonRows(history)|
    ensures var left, right := ComparisonRows(history)[j].bestRun, ComparisonRows(history)[k].bestRun;
            left.Some? && right.Some? && RanksNoLater(left.value, right.value)
  {
    RowsPartitionHistory(history);
    hide RanksNoLater, RunsOf, ComparisonRows;
    var rows := ComparisonRows(history);
    assert IsRowOf(history, rows[j]) && IsRowOf(history, rows[k]);
    assert RowRanksNoLater(rows[j], rows[k]);
  }

  /** The first row's best run is a run of the history that no listed run beats. */
  lemma FirstRowIsUnbeaten(history: seq<HistoryItem>, item: HistoryItem, strategyId: string)
    requires item in history && Names(item, strategyId)
    ensures var rows := ComparisonRows(history);
            && rows != [] && rows[0].bestRun.Some?
            && rows[0].bestRun.value in history
            && RanksNoLater(rows[0].bestRun.value, item)
  {
    RowsPartitionHistory(history);
    RankingIsTotalPreorder();
    hide RanksNoLater, RunsOf, ComparisonRows;
    var rows := ComparisonRows(history);
    var i :| 0 <= i < |history| && history[i] == item;
    var k :| 0 <= k < |rows| && rows[k].strategyId == strategyId && item in rows[k].runs;
    RunsAreMembers(history, rows[0].strategyId);
    assert RanksNoLater(rows[k].bestRun.value, item);
    if k > 0 {
      RowsDescendByBestRun(history, 0, k);
    }
  }
}
