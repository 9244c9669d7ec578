/** Merging candle sets by timestamp (frontend/app.js, mergeCandleSets and sortCandlesOldestFirst). */
module CandleMerge {
  import opened Optional
  import opened Searching
  import opened StableSorting

  /** A chart candle. `time` is its parsed timestamp, absent when the text does not parse. */
  datatype ChartCandle = ChartCandle(
    time: Option<int>,
    open: real,
    high: real,
    low: real,
    close: real,
    volume: Option<real>
  )

  function TimeOrZero(c: ChartCandle): int {
    if c.time.Some? then c.time.value else 0
  }

  predicate NotNewer(x: ChartCandle, y: ChartCandle) {
    TimeOrZero(x) <= TimeOrZero(y)
  }

  function SortOldestFirst(candles: seq<ChartCandle>): seq<ChartCandle> {
    StableSort(NotNewer, candles)
  }

  /** Every candle has a timestamp, and they strictly ascend. */
  ghost predicate StrictlyAscending(candles: seq<ChartCandle>) {
    && (forall i :: 0 <= i < |candles| ==> candles[i].time.Some?)
    && (forall i, j :: 0 <= i < j < |candles| ==> candles[i].time.value < candles[j].time.value)
  }

  /** The last candle of `all` with timestamp `t`. */
  function CandleAt(all: seq<ChartCandle>, t: int): (found: Option<ChartCandle>)
    ensures found.Some? ==> found.value in all && found.value.time == Some(t)
    ensures found.None? ==> forall i :: 0 <= i < |all| ==> all[i].time != Some(t)
  {
    if all == [] then None
    else if all[|all| - 1].time == Some(t) then Some(all[|all| - 1])
    else CandleAt(all[..|all| - 1], t)
  }

  /** Every entry has a timestamp, and no two share one. */
  ghost predicate Keyed(entries: seq<ChartCandle>) {
    && (forall i :: 0 <= i < |entries| ==> entries[i].time.Some?)
    && (forall i, j :: 0 <= i < j < |entries| ==> entries[i].time != entries[j].time)
  }

  /** Two candle lists agree at every timestamp. */
  ghost predicate SameCandles(a: seq<ChartCandle>, b: seq<ChartCandle>) {
    forall t :: CandleAt(a, t) == CandleAt(b, t)
  }

  /**
   * What a merge promises: strictly ascending candles that hold, at every timestamp, the last candle
   * that the existing and then the incoming ones have there, and none where they have none.
   */
  ghost predicate IsMerge(existing: seq<ChartCandle>, incoming: seq<ChartCandle>, merged: seq<ChartCandle>) {
    StrictlyAscending(merged) && SameCandles(merged, existing + incoming)
  }

  /** The position of the entry for a timestamp, or the number of entries. */
  function EntryFor(entries: seq<ChartCandle>, time: Option<int>): nat {
    IndexWhere(entries, (c: ChartCandle) => c.time == time)
  }

  /** `Map.set`: a known key keeps its place, a new one goes last. */
  function Upsert(entries: seq<ChartCandle>, c: ChartCandle): seq<ChartCandle> {
    var k := EntryFor(entries, c.time);
    if k < |entries| then entries[k := c] else entries + [c]
  }

  lemma AppendAt(all: seq<ChartCandle>, next: ChartCandle, t: int)
    ensures CandleAt(all + [next], t) == if next.time == Some(t) then Some(next) else CandleAt(all, t)
  {
  }

  lemma {:induction false} ReplaceAt(entries: seq<ChartCandle>, k: nat, c: ChartCandle, t: int)
    requires Keyed(entries) && k < |entries| && entries[k].time == c.time
    ensures CandleAt(entries[k := c], t) == if c.time == Some(t) then Some(c) else CandleAt(entries, t)
  {
    var n := |entries| - 1;
    if k < n {
      assert entries[k := c][..n] == entries[..n][k := c];
      ReplaceAt(entries[..n], k, c, t);
    } else {
      assert entries[k := c][..n] == entries[..n];
    }
  }

  lemma UpsertAt(all: seq<ChartCandle>, entries: seq<ChartCandle>, next: ChartCandle)
    requires Keyed(entries) && SameCandles(entries, all) && next.time.Some?
    ensures Keyed(Upsert(entries, next)) && SameCandles(Upsert(entries, next), all + [next])
  {
    forall t ensures CandleAt(Upsert(entries, next), t) == CandleAt(all + [next], t) {
      var k := EntryFor(entries, next.time);
      AppendAt(all, next, t);
      assert CandleAt(entries, t) == CandleAt(all, t);
      if k < |entries| {
        ReplaceAt(entries, k, next, t);
      } else {
        AppendAt(entries, next, t);
      }
    }
  }

  lemma UntimedAddsNothing(all: seq<ChartCandle>, entries: seq<ChartCandle>, next: ChartCandle)
    requires SameCandles(entries, all) && next.time.None?
    ensures SameCandles(entries, all + [next])
  {
  }

  lemma SameMembersSameCandles(a: seq<ChartCandle>, b: seq<ChartCandle>)
    requires Keyed(a) && Keyed(b) && forall c :: c in a <==> c in b
    ensures SameCandles(a, b)
  {
  }

  lemma SameCandlesSameMembers(a: seq<ChartCandle>, b: seq<ChartCandle>)
    requires Keyed(a) && Keyed(b) && SameCandles(a, b)
    ensures forall c :: c in a <==> c in b
  {
    forall c ensures c in a <==> c in b {
      if c in a || c in b {
        var t := c.time.value;
        assert CandleAt(a, t) == CandleAt(b, t);
      }
    }
  }

  lemma KeyedSurvivesPermutation(s: seq<ChartCandle>, r: seq<ChartCandle>)
    requires Keyed(s) && multiset(r) == multiset(s)
    ensures Keyed(r) && forall c :: c in r <==> c in s
  {
    PermutationKeepsMembers(s, r);
    assert forall i :: 0 <= i < |r| ==> r[i] in s;
  }

  lemma SortingKeepsCandles(entries: seq<ChartCandle>)
    requires Keyed(entries)
    ensures StrictlyAscending(SortOldestFirst(entries)) && SameCandles(SortOldestFirst(entries), entries)
  {
    var sorted := SortOldestFirst(entries);
    SortIsStable(NotNewer, entries);
    hide StableSort, Ties, CandleAt;
    KeyedSurvivesPermutation(entries, sorted);
    SameMembersSameCandles(sorted, entries);
    assert forall i, j :: 0 <= i < j < |sorted| ==> NotNewer(sorted[i], sorted[j]);
  }

  /** The values of the map after all candles have been set in it by their timestamps. */
  function Collected(all: seq<ChartCandle>): seq<ChartCandle> {
    if all == [] then []
    else
      var n := |all| - 1;
      var entries := Collected(all[..n]);
      if all[n].time.None? then entries else Upsert(entries, all[n])
  }

  /** The merge of two candle lists; computed by `MergeCandleSets`. */
  function Merged(existing: seq<ChartCandle>, incoming: seq<ChartCandle>): seq<ChartCandle> {
    SortOldestFirst(Collected(existing + incoming))
  }

  lemma {:induction false} CollectedKeepsCandles(all: seq<ChartCandle>)
    ensures Keyed(Collected(all)) && SameCandles(Collected(all), all)
  {
    if all != [] {
      var n := |all| - 1;
      CollectedKeepsCandles(all[..n]);
      assert all == all[..n] + [all[n]];
      if all[n].time.None? {
        UntimedAddsNothing(all[..n], Collected(all[..n]), all[n]);
      } else {
        UpsertAt(all[..n], Collected(all[..n]), all[n]);
      }
    }
  }

  /** The merge keeps its promise, for any two candle lists. */
  lemma MergedIsMerge(existing: seq<ChartCandle>, incoming: seq<ChartCandle>)
    ensures IsMerge(existing, incoming, Merged(existing, incoming))
  {
    var all := existing + incoming;
    CollectedKeepsCandles(all);
    SortingKeepsCandles(Collected(all));
    forall t ensures CandleAt(Merged(existing, incoming), t) == CandleAt(all, t) {
      assert CandleAt(Collected(all), t) == CandleAt(all, t);
    }
  }

  /** Existing candles, then incoming ones, go into a map by timestamp, whose values are then sorted. */
  method MergeCandleSets(existing: seq<ChartCandle>, incoming: seq<ChartCandle>) returns (merged: seq<ChartCandle>)
    ensures merged == Merged(existing, incoming)
    ensures IsMerge(existing, incoming, merged)
  {
    hide Upsert, SortOldestFirst;
    var all := existing + incoming;
    var byTime: seq<ChartCandle> := [];
    for i := 0 to |all|
      invariant byTime == Collected(all[..i])
    {
      assert all[..i + 1][..i] == all[..i];
      if all[i].time.None? {
        continue;
      }
      byTime := Upsert(byTime, all[i]);
    }
    assert all[..|all|] == all;
    merged := SortOldestFirst(byTime);
    MergedIsMerge(existing, incoming);
  }

  // ----- what the promise means -----

  lemma {:induction false} AscendingIsDetermined(a: seq<ChartCandle>, b: seq<ChartCandle>)
    requires StrictlyAscending(a) && StrictlyAscending(b)
    requires forall c :: c in a <==> c in b
    ensures a == b
  {
    if a == [] {
      assert forall i :: 0 <= i < |b| ==> b[i] in a;
    } else {
      assert a[0] in b && b[0] in a;
      assert a[0] == b[0];
      forall c ensures c in a[1..] <==> c in b[1..] {
        assert c in a[1..] <==> c in a && c != a[0];
        assert c in b[1..] <==> c in b && c != b[0];
      }
      AscendingIsDetermined(a[1..], b[1..]);
    }
  }

  /** The promise determines the result. */
  lemma MergeIsDetermined(existing: seq<ChartCandle>, incoming: seq<ChartCandle>,
                          a: seq<ChartCandle>, b: seq<ChartCandle>)
    requires IsMerge(existing, incoming, a) && IsMerge(existing, incoming, b)
    ensures a == b
  {
    forall t ensures CandleAt(a, t) == CandleAt(b, t) {
      assert CandleAt(a, t) == CandleAt(existing + incoming, t);
    }
    SameCandlesSameMembers(a, b);
    AscendingIsDetermined(a, b);
  }

  lemma {:induction false} ConcatAt(a: seq<ChartCandle>, b: seq<ChartCandle>, t: int)
    ensures CandleAt(a + b, t) == if CandleAt(b, t).Some? then CandleAt(b, t) else CandleAt(a, t)
  {
    if b == [] {
      assert a + b == a;
    } else {
      assert (a + b)[..|a + b| - 1] == a + b[..|b| - 1];
      ConcatAt(a, b[..|b| - 1], t);
    }
  }

  /** At every timestamp the incoming candle wins a clash, and without one the existing candle stays. */
  lemma IncomingWins(existing: seq<ChartCandle>, incoming: seq<ChartCandle>, merged: seq<ChartCandle>, t: int)
    requires IsMerge(existing, incoming, merged)
    ensures CandleAt(merged, t) == if CandleAt(incoming, t).Some? then CandleAt(incoming, t) else CandleAt(existing, t)
  {
    ConcatAt(existing, incoming, t);
    assert CandleAt(merged, t) == CandleAt(existing + incoming, t);
  }

  /** All timestamped incoming candles are older than the first existing one. */
  ghost predicate AllOlder(existing: seq<ChartCandle>, incoming: seq<ChartCandle>) {
    && existing != [] && existing[0].time.Some?
    && forall i :: 0 <= i < |incoming| && incoming[i].time.Some? ==> incoming[i].time.value < existing[0].time.value
  }

  predicate NoneTimed(candles: seq<ChartCandle>) {
    forall i :: 0 <= i < |candles| ==> candles[i].time.None?
  }

  lemma SplitAt(candles: seq<ChartCandle>, time: int) returns (n: nat)
    requires StrictlyAscending(candles)
    ensures n <= |candles|
    ensures forall i :: 0 <= i < n ==> candles[i].time.value < time
    ensures forall i :: n <= i < |candles| ==> candles[i].time.value >= time
  {
    n := 0;
    while n < |candles| && candles[n].time.value < time
      invariant n <= |candles|
      invariant forall i :: 0 <= i < n ==> candles[i].time.value < time
    {
      n := n + 1;
    }
  }

  lemma MemberAt(candles: seq<ChartCandle>, c: ChartCandle)
    requires Keyed(candles) && c.time.Some?
    ensures c in candles <==> CandleAt(candles, c.time.value) == Some(c)
  {
  }

  lemma NewerAreExisting(existing: seq<ChartCandle>, incoming: seq<ChartCandle>, merged: seq<ChartCandle>,
                         c: ChartCandle)
    requires StrictlyAscending(existing) && AllOlder(existing, incoming) && IsMerge(existing, incoming, merged)
    requires c.time.Some? && c.time.value >= existing[0].time.value
    ensures c in merged <==> c in existing
  {
    IncomingWins(existing, incoming, merged, c.time.value);
    MemberAt(merged, c);
    MemberAt(existing, c);
  }

  /** Merging in older candles puts them in front: the existing ones follow unchanged. */
  lemma OlderCandlesGoInFront(existing: seq<ChartCandle>, incoming: seq<ChartCandle>, merged: seq<ChartCandle>)
    requires StrictlyAscending(existing) && AllOlder(existing, incoming) && IsMerge(existing, incoming, merged)
    ensures |merged| >= |existing| && merged[|merged| - |existing|..] == existing
    ensures |merged| == |existing| <==> NoneTimed(incoming)
  {
    var t := existing[0].time.value;
    var n := SplitAt(merged, t);
    forall c ensures c in merged[n..] <==> c in existing {
      if c.time.Some? && c.time.value >= t {
        NewerAreExisting(existing, incoming, merged, c);
      }
    }
    AscendingIsDetermined(merged[n..], existing);
    FrontComesFromIncoming(existing, incoming, merged, n);
  }

  lemma FrontComesFromIncoming(existing: seq<ChartCandle>, incoming: seq<ChartCandle>, merged: seq<ChartCandle>, n: nat)
    requires StrictlyAscending(existing) && AllOlder(existing, incoming) && IsMerge(existing, incoming, merged)
    requires n <= |merged| && merged[n..] == existing
    requires forall i :: 0 <= i < n ==> merged[i].time.value < existing[0].time.value
    ensures n == 0 <==> NoneTimed(incoming)
  {
    if n > 0 {
      IncomingWins(existing, incoming, merged, merged[0].time.value);
      MemberAt(merged, merged[0]);
    }
    if i :| 0 <= i < |incoming| && incoming[i].time.Some? {
      var t := incoming[i].time.value;
      IncomingWins(existing, incoming, merged, t);
      var k :| 0 <= k < |merged| && merged[k] == CandleAt(merged, t).value;
    }
  }
}
