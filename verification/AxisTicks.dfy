/** The time ticks under the candle chart (frontend/app.js, candleTimeTickIndexes). */
module AxisTicks {
  import opened Rounding
  import opened StableSorting

  predicate AtMost(x: int, y: int) {
    x <= y
  }

  /** Tick `i` of `ticks` evenly spaced positions over `n` candles. */
  function TickAt(n: nat, ticks: nat, i: nat): int
    requires 2 <= ticks <= n
  {
    RoundRatio(i * (n - 1), ticks - 1)
  }

  /** Neighbouring ticks are the rounded-down spacing apart, or one more; the spacing is at least one. */
  lemma TickSpacing(n: nat, ticks: nat, i: nat)
    requires 2 <= ticks <= n
    ensures var gap := TickAt(n, ticks, i + 1) - TickAt(n, ticks, i);
            1 <= (n - 1) / (ticks - 1) <= gap <= (n - 1) / (ticks - 1) + 1
  {
    var d := ticks - 1;
    var x, y := 2 * (i * (n - 1)) + d, 2 * (n - 1);
    assert 2 * ((i + 1) * (n - 1)) + d == x + y;
    QuotientStep(x, y, 2 * d);
    HalvesCancel(n - 1, d);
    SpacingAtLeastOne(n - 1, d);
  }

  lemma HalvesCancel(x: nat, d: nat)
    requires d > 0
    ensures (2 * x) / (2 * d) == x / d
  {
    assert x == d * (x / d) + x % d;
    assert (2 * d) * (x / d) == 2 * (d * (x / d));
    QuotientIsUnique(2 * x, 2 * d, x / d);
  }

  lemma SpacingAtLeastOne(x: nat, d: nat)
    requires 0 < d <= x
    ensures x / d >= 1
  {
  }

  lemma EndTicks(n: nat, ticks: nat)
    requires 2 <= ticks <= n
    ensures TickAt(n, ticks, 0) == 0 && TickAt(n, ticks, ticks - 1) == n - 1
  {
    var d := ticks - 1;
    QuotientIsUnique(d, 2 * d, 0);
    assert 2 * (d * (n - 1)) + d == (2 * d) * (n - 1) + d;
    QuotientIsUnique(2 * (d * (n - 1)) + d, 2 * d, n - 1);
  }

  lemma {:induction false} TicksIncrease(n: nat, ticks: nat, i: nat, j: nat)
    requires 2 <= ticks <= n && i < j
    ensures TickAt(n, ticks, i) < TickAt(n, ticks, j)
    decreases j
  {
    TickSpacing(n, ticks, j - 1);
    if i < j - 1 {
      TicksIncrease(n, ticks, i, j - 1);
    }
  }

  predicate StrictlyIncreasing(ticks: seq<int>) {
    forall i, j :: 0 <= i < j < |ticks| ==> ticks[i] < ticks[j]
  }

  /** Every gap between neighbours is `low` or one more, so no two gaps differ by more than one. */
  predicate EvenlySpaced(ticks: seq<int>, low: int) {
    forall i :: 0 < i < |ticks| ==> low <= ticks[i] - ticks[i - 1] <= low + 1
  }

  /** Each index is the one nearest to its place among `ticks` evenly spaced positions over `n` candles, halves up. */
  ghost predicate AreNearest(n: nat, ticks: nat, indexes: seq<int>) {
    forall i :: 0 <= i < |indexes| ==> -(ticks - 1) <= 2 * (i * (n - 1)) - 2 * ((ticks - 1) * indexes[i]) < ticks - 1
  }

  lemma TicksAreNearest(n: nat, ticks: nat, indexes: seq<int>)
    requires 2 <= ticks <= n && AreTicks(n, ticks, indexes)
    ensures AreNearest(n, ticks, indexes)
  {
    forall i | 0 <= i < |indexes|
      ensures -(ticks - 1) <= 2 * (i * (n - 1)) - 2 * ((ticks - 1) * indexes[i]) < ticks - 1
    {
      RoundIsNearest(i * (n - 1), ticks - 1);
      assert 2 * (ticks - 1) * indexes[i] == 2 * ((ticks - 1) * indexes[i]);
      hide RoundRatio;
    }
  }

  ghost predicate AreTicks(n: nat, ticks: nat, indexes: seq<int>)
    requires 2 <= ticks <= n
  {
    forall i :: 0 <= i < |indexes| ==> indexes[i] == TickAt(n, ticks, i)
  }

  lemma TicksAreIncreasing(n: nat, ticks: nat, indexes: seq<int>)
    requires 2 <= ticks <= n && AreTicks(n, ticks, indexes)
    ensures StrictlyIncreasing(indexes)
  {
    hide TickAt;
    forall i, j | 0 <= i < j < |indexes| ensures indexes[i] < indexes[j] {
      TicksIncrease(n, ticks, i, j);
    }
  }

  lemma TicksAreEvenlySpaced(n: nat, ticks: nat, indexes: seq<int>)
    requires 2 <= ticks <= n && AreTicks(n, ticks, indexes)
    ensures EvenlySpaced(indexes, (n - 1) / (ticks - 1))
  {
    hide TickAt;
    var low := (n - 1) / (ticks - 1);
    forall i | 0 < i < |indexes| ensures low <= indexes[i] - indexes[i - 1] <= low + 1 {
      TickSpacing(n, ticks, i - 1);
    }
  }

  lemma NextTickIsNew(n: nat, ticks: nat, indexes: seq<int>)
    requires 2 <= ticks <= n && AreTicks(n, ticks, indexes)
    ensures TickAt(n, ticks, |indexes|) !in indexes
  {
    hide TickAt;
    forall i | 0 <= i < |indexes| ensures indexes[i] != TickAt(n, ticks, |indexes|) {
      TicksIncrease(n, ticks, i, |indexes|);
    }
  }

  lemma SortingKeepsTicks(indexes: seq<int>)
    requires StrictlyIncreasing(indexes)
    ensures StableSort(AtMost, indexes) == indexes
  {
  }

  /** A list of tick indexes, or the list whose one element is `NaN`. */
  datatype TickList = Ticks(indexes: seq<int>) | OneNaN

  /**
   * The tick indexes for `n` candles; the chart asks for five. With at least two candles and two
   * ticks there are min(count, n) of them, strictly increasing from the first candle to the last,
   * each nearest to its even position, with gaps between neighbours that differ by at most one. One
   * tick over several candles divides zero by zero, and none or fewer give the empty list.
   */
  method CandleTimeTickIndexes(n: nat, count: int := 5) returns (ticks: TickList)
    ensures n <= 1 ==> ticks == Ticks([0])
    ensures n >= 2 && count <= 0 ==> ticks == Ticks([])
    ensures ticks.OneNaN? <==> n >= 2 && count == 1
    ensures n >= 2 && count >= 2 ==> |ticks.indexes| == if count < n then count else n
    ensures n >= 2 && count >= 2 ==> ticks.indexes[0] == 0 && ticks.indexes[|ticks.indexes| - 1] == n - 1
    ensures n >= 2 && count >= 2 ==> StrictlyIncreasing(ticks.indexes)
    ensures n >= 2 && count >= 2 ==> AreNearest(n, |ticks.indexes|, ticks.indexes)
    ensures n >= 2 && count >= 2 ==> EvenlySpaced(ticks.indexes, (n - 1) / (|ticks.indexes| - 1))
  {
    hide RoundRatio, StrictlyIncreasing, EvenlySpaced, AreNearest;
    if n <= 1 {
      return Ticks([0]);
    }
    var tickCount := if count < n then count else n;
    if tickCount <= 0 {
      return Ticks([]);
    }
    if tickCount == 1 {
      return OneNaN;
    }
    var indexes: seq<int> := [];
    for index := 0 to tickCount
      invariant |indexes| == index && AreTicks(n, tickCount, indexes)
    {
      NextTickIsNew(n, tickCount, indexes);
      var tick := RoundRatio(index * (n - 1), tickCount - 1);
      if tick !in indexes {
        indexes := indexes + [tick];
      }
    }
    ticks := Ticks(StableSort(AtMost, indexes));
    TicksAreIncreasing(n, tickCount, indexes);
    TicksAreEvenlySpaced(n, tickCount, indexes);
    TicksAreNearest(n, tickCount, indexes);
    SortingKeepsTicks(indexes);
    EndTicks(n, tickCount);
  }
}
