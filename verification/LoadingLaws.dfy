/**
 * Laws of the chart when older candles arrive: over any interleaving of gestures and loads the loaded
 * candles stay in order and are kept, and a load keeps the view under an exact condition on the merge.
 */
module LoadingLaws {
  import opened Optional
  import opened CandleMerge
  import opened CandleWindow
  import opened WindowLaws

  // ----- where the window is anchored -----

  ghost predicate HasTime(candles: seq<ChartCandle>, time: Option<int>) {
    exists k :: 0 <= k < |candles| && candles[k].time == time
  }

  /** `many` has a candle at every timestamp of `few`. */
  ghost predicate Covers(many: seq<ChartCandle>, few: seq<ChartCandle>) {
    forall i :: 0 <= i < |few| ==> HasTime(many, few[i].time)
  }

  /** Dropping candles before a shared timestamp keeps the timestamps from there on. */
  lemma TailsCover(many: seq<ChartCandle>, few: seq<ChartCandle>, m: nat, f: nat)
    requires StrictlyAscending(few) && StrictlyAscending(many) && Covers(many, few)
    requires m <= |many| && f <= |few|
    requires forall k, i :: 0 <= k < m && f <= i < |few| ==> many[k].time.value < few[i].time.value
    ensures Covers(many[m..], few[f..])
  {
    forall i | 0 <= i < |few| - f ensures HasTime(many[m..], few[f..][i].time) {
      assert HasTime(many, few[f + i].time);
      var k :| 0 <= k < |many| && many[k].time == few[f + i].time;
      assert many[m..][k - m] == many[k];
    }
  }

  lemma {:induction false} CoveringIsLonger(many: seq<ChartCandle>, few: seq<ChartCandle>)
    requires StrictlyAscending(few) && StrictlyAscending(many) && Covers(many, few)
    ensures |few| <= |many|
  {
    if few != [] {
      assert HasTime(many, few[0].time);
      var m :| 0 <= m < |many| && many[m].time == few[0].time;
      TailsCover(many, few, m + 1, 1);
      CoveringIsLonger(many[m + 1..], few[1..]);
    }
  }

  lemma MergeCoversExisting(existing: seq<ChartCandle>, incoming: seq<ChartCandle>, merged: seq<ChartCandle>)
    requires StrictlyAscending(existing) && IsMerge(existing, incoming, merged)
    ensures Covers(merged, existing) && |existing| <= |merged|
  {
    forall i | 0 <= i < |existing| ensures HasTime(merged, existing[i].time) {
      var t := existing[i].time.value;
      IncomingWins(existing, incoming, merged, t);
      var c := CandleAt(merged, t).value;
      var k :| 0 <= k < |merged| && merged[k] == c;
    }
    CoveringIsLonger(merged, existing);
  }

  /**
   * After any merge the window starts at the place of the timestamp that was first in view, and there
   * are at least as many candles from there on as were loaded from there on before.
   */
  lemma AnchorOfMerge(v: View, incoming: seq<ChartCandle>, merged: seq<ChartCandle>)
    requires StrictlyAscending(v.candles) && v.candles != [] && IsMerge(v.candles, incoming, merged)
    ensures var w, anchor := Visible(v), AfterOlder(v, merged).start;
            && 0 <= anchor < |merged|
            && merged[anchor].time == v.candles[w.start].time
            && |v.candles| - w.start <= |merged| - anchor
  {
    hide SameCandles, Normalized, Covers, StrictlyAscending, EntryFor;
    var s := Visible(v).start;
    MergeCoversExisting(v.candles, incoming, merged);
    AnchorHasTime(merged, v.candles, s);
    TailFromSharedTime(merged, v.candles, EntryFor(merged, v.candles[s].time), s);
  }

  lemma TailFromSharedTime(many: seq<ChartCandle>, few: seq<ChartCandle>, m: nat, f: nat)
    requires StrictlyAscending(few) && StrictlyAscending(many) && Covers(many, few)
    requires m < |many| && f < |few| && many[m].time == few[f].time
    ensures |few| - f <= |many| - m
  {
    TailsCover(many, few, m, f);
    hide Covers;
    CoveringIsLonger(many[m..], few[f..]);
  }

  lemma AnchorHasTime(many: seq<ChartCandle>, few: seq<ChartCandle>, i: nat)
    requires Covers(many, few) && i < |few|
    ensures EntryFor(many, few[i].time) < |many| && many[EntryFor(many, few[i].time)].time == few[i].time
  {
    assert HasTime(many, few[i].time);
  }

  // ----- exactly when a load keeps the view -----

  /** No incoming timestamp from `first` to `last` changes or adds a candle. */
  ghost predicate Quiet(existing: seq<ChartCandle>, incoming: seq<ChartCandle>, first: int, last: int) {
    forall t :: first <= t <= last && CandleAt(incoming, t).Some? ==> CandleAt(incoming, t) == CandleAt(existing, t)
  }

  /** No incoming timestamp inside the visible range changes or adds a candle. */
  ghost predicate Undisturbed(v: View, incoming: seq<ChartCandle>)
    requires StrictlyAscending(v.candles) && v.candles != []
  {
    var w := Visible(v);
    Quiet(v.candles, incoming, TimeOrZero(v.candles[w.start]), TimeOrZero(v.candles[w.start + w.count - 1]))
  }

  /** `stretch` are the candles of `all` with timestamps from `first` to `last`, in order. */
  ghost predicate IsStretch(stretch: seq<ChartCandle>, all: seq<ChartCandle>, first: int, last: int) {
    && StrictlyAscending(stretch)
    && forall c :: c in stretch <==> c in all && c.time.Some? && first <= c.time.value <= last
  }

  lemma SliceAscends(candles: seq<ChartCandle>, p: nat, q: nat)
    requires StrictlyAscending(candles) && p <= q <= |candles|
    ensures StrictlyAscending(candles[p..q])
  {
  }

  lemma PlaceIsBetween(candles: seq<ChartCandle>, p: nat, q: nat, i: nat)
    requires StrictlyAscending(candles) && p < q <= |candles| && i < |candles|
    ensures candles[i].time.Some?
    ensures p <= i < q <==> TimeOrZero(candles[p]) <= candles[i].time.value <= TimeOrZero(candles[q - 1])
  {
  }

  /** The candles between two places are the stretch between their timestamps. */
  lemma StretchBetweenPlaces(candles: seq<ChartCandle>, p: nat, q: nat)
    requires StrictlyAscending(candles) && p < q <= |candles|
    ensures IsStretch(candles[p..q], candles, TimeOrZero(candles[p]), TimeOrZero(candles[q - 1]))
    ensures TimeOrZero(candles[p]) <= TimeOrZero(candles[q - 1])
  {
    hide StrictlyAscending, TimeOrZero;
    SliceAscends(candles, p, q);
    PlaceIsBetween(candles, p, q, p);
    var first, last, stretch := TimeOrZero(candles[p]), TimeOrZero(candles[q - 1]), candles[p..q];
    forall c ensures c in stretch <==> c in candles && c.time.Some? && first <= c.time.value <= last {
      if i :| 0 <= i < |candles| && candles[i] == c {
        PlaceIsBetween(candles, p, q, i);
        if p <= i < q {
          assert stretch[i - p] == c;
        } else if c in stretch {
          var j :| 0 <= j < |stretch| && stretch[j] == c;
          PlaceIsBetween(candles, p, q, p + j);
        }
      }
    }
  }

  /** The stretch from a place up to a timestamp is a run of candles from that place on. */
  lemma StretchFromPlace(candles: seq<ChartCandle>, p: nat, last: int) returns (q: nat)
    requires StrictlyAscending(candles) && p < |candles| && TimeOrZero(candles[p]) <= last
    ensures p < q <= |candles| && IsStretch(candles[p..q], candles, TimeOrZero(candles[p]), last)
  {
    q := SplitAt(candles, last + 1);
    StretchBetweenPlaces(candles, p, q);
    var end := candles[q - 1].time.value;
    assert forall i :: 0 <= i < |candles| ==> (candles[i].time.value <= last <==> candles[i].time.value <= end);
  }

  /** Where the incoming candles are quiet, the merged stretch is the existing one. */
  lemma QuietStretchesAgree(existing: seq<ChartCandle>, incoming: seq<ChartCandle>, merged: seq<ChartCandle>,
                            first: int, last: int, kept: seq<ChartCandle>, shown: seq<ChartCandle>)
    requires StrictlyAscending(existing) && IsMerge(existing, incoming, merged)
    requires Quiet(existing, incoming, first, last)
    requires IsStretch(kept, merged, first, last) && IsStretch(shown, existing, first, last)
    ensures kept == shown
  {
    forall c ensures c in kept <==> c in shown {
      if c.time.Some? && first <= c.time.value <= last {
        IncomingWins(existing, incoming, merged, c.time.value);
        MemberAt(merged, c);
        MemberAt(existing, c);
      }
    }
    AscendingIsDetermined(kept, shown);
  }

  /** Where the merged stretch is the existing one, the incoming candles are quiet. */
  lemma SameStretchIsQuiet(existing: seq<ChartCandle>, incoming: seq<ChartCandle>, merged: seq<ChartCandle>,
                           first: int, last: int, kept: seq<ChartCandle>)
    requires StrictlyAscending(existing) && IsMerge(existing, incoming, merged)
    requires IsStretch(kept, merged, first, last) && IsStretch(kept, existing, first, last)
    ensures Quiet(existing, incoming, first, last)
  {
    forall t | first <= t <= last && CandleAt(incoming, t).Some?
      ensures CandleAt(incoming, t) == CandleAt(existing, t)
    {
      IncomingWins(existing, incoming, merged, t);
      var c := CandleAt(incoming, t).value;
      assert c in kept;
      MemberAt(existing, c);
    }
  }

  lemma QuietKeepsStretch(existing: seq<ChartCandle>, incoming: seq<ChartCandle>, merged: seq<ChartCandle>,
                          s: nat, n: nat, p: nat)
    requires StrictlyAscending(existing) && IsMerge(existing, incoming, merged)
    requires 0 < n && s + n <= |existing| && p < |merged| && merged[p].time == existing[s].time
    requires Quiet(existing, incoming, TimeOrZero(existing[s]), TimeOrZero(existing[s + n - 1]))
    ensures p + n <= |merged| && merged[p..p + n] == existing[s..s + n]
  {
    hide IsStretch, Quiet, SameCandles, StrictlyAscending;
    var first, last := TimeOrZero(existing[s]), TimeOrZero(existing[s + n - 1]);
    StretchBetweenPlaces(existing, s, s + n);
    var q := StretchFromPlace(merged, p, last);
    QuietStretchesAgree(existing, incoming, merged, first, last, merged[p..q], existing[s..s + n]);
    assert q - p == |merged[p..q]| == n;
  }

  lemma KeptStretchIsQuiet(existing: seq<ChartCandle>, incoming: seq<ChartCandle>, merged: seq<ChartCandle>,
                           s: nat, n: nat, p: nat)
    requires StrictlyAscending(existing) && IsMerge(existing, incoming, merged)
    requires 0 < n && s + n <= |existing| && p + n <= |merged| && merged[p..p + n] == existing[s..s + n]
    ensures Quiet(existing, incoming, TimeOrZero(existing[s]), TimeOrZero(existing[s + n - 1]))
  {
    hide IsStretch, Quiet, SameCandles, StrictlyAscending;
    StretchBetweenPlaces(existing, s, s + n);
    StretchBetweenPlaces(merged, p, p + n);
    var kept := merged[p..p + n];
    assert kept[0] == merged[p] && kept[n - 1] == merged[p + n - 1];
    assert kept[0] == existing[s] && kept[n - 1] == existing[s + n - 1];
    SameStretchIsQuiet(existing, incoming, merged, TimeOrZero(existing[s]), TimeOrZero(existing[s + n - 1]), kept);
  }

  lemma StretchKeptIffUndisturbed(v: View, incoming: seq<ChartCandle>, merged: seq<ChartCandle>, p: nat)
    requires StrictlyAscending(v.candles) && v.candles != [] && IsMerge(v.candles, incoming, merged)
    requires p + Visible(v).count <= |merged| && merged[p].time == v.candles[Visible(v).start].time
    ensures merged[p..p + Visible(v).count] == VisibleCandles(v) <==> Undisturbed(v, incoming)
  {
    hide Normalized, Quiet, IsMerge;
    var w := Visible(v);
    if Undisturbed(v, incoming) {
      QuietKeepsStretch(v.candles, incoming, merged, w.start, w.count, p);
    }
    if merged[p..p + w.count] == VisibleCandles(v) {
      KeptStretchIsQuiet(v.candles, incoming, merged, w.start, w.count, p);
    }
  }

  /** From an unclamped start the kept count is shown, or more when it is below the minimum. */
  lemma ShownFromStart(next: View, p: nat, count: int)
    requires next.start == p && next.count == Some(count) && 0 < count && p + count <= |next.candles|
    ensures if count >= MinimumVisible(|next.candles|) then VisibleCandles(next) == next.candles[p..p + count]
            else |VisibleCandles(next)| > count
  {
  }

  /**
   * Anchoring after any merge, older or not: the visible candles stay identical exactly when no
   * incoming timestamp inside the visible range changes or adds a candle, and the window is not
   * narrower than the minimum for the merged candles.
   */
  lemma MergeKeepsTheView(v: View, incoming: seq<ChartCandle>, merged: seq<ChartCandle>)
    requires StrictlyAscending(v.candles) && v.candles != [] && IsMerge(v.candles, incoming, merged)
    ensures VisibleCandles(AfterOlder(v, merged)) == VisibleCandles(v) <==>
              Undisturbed(v, incoming) && Visible(v).count >= MinimumVisible(|merged|)
  {
    var next, w := AfterOlder(v, merged), Visible(v);
    assert |VisibleCandles(v)| == w.count;
    AnchorOfMerge(v, incoming, merged);
    hide IsMerge, EntryFor, Undisturbed, StrictlyAscending, Normalized, VisibleCandles;
    StretchKeptIffUndisturbed(v, incoming, merged, next.start);
    ShownFromStart(next, next.start, w.count);
  }

  // ----- any interleaving of gestures and loads -----

  datatype Event = Gestured(gesture: Gesture) | OlderArrived(incoming: seq<ChartCandle>)

  function React(v: View, e: Event): View {
    match e
    case Gestured(gesture) => Perform(v, gesture)
    case OlderArrived(incoming) => OlderLoaded(v, incoming)
  }

  function ReactAll(v: View, events: seq<Event>): View {
    if events == [] then v else React(ReactAll(v, events[..|events| - 1]), events[|events| - 1])
  }

  /** Every response holds only candles older than those loaded when it arrives, as is asked for. */
  ghost predicate LoadsAreOlder(v: View, events: seq<Event>) {
    events == [] ||
    var rest, e := events[..|events| - 1], events[|events| - 1];
    && LoadsAreOlder(v, rest)
    && (e.OlderArrived? && ReactAll(v, rest).candles != [] ==>
          StrictlyAscending(ReactAll(v, rest).candles) && AllOlder(ReactAll(v, rest).candles, e.incoming))
  }

  ghost predicate EndsWith(candles: seq<ChartCandle>, suffix: seq<ChartCandle>) {
    |suffix| <= |candles| && candles[|candles| - |suffix|..] == suffix
  }

  lemma EndsWithIsTransitive(a: seq<ChartCandle>, b: seq<ChartCandle>, c: seq<ChartCandle>)
    requires EndsWith(a, b) && EndsWith(b, c)
    ensures EndsWith(a, c)
  {
    assert a[|a| - |c|..] == a[|a| - |b|..][|b| - |c|..];
  }

  /** Every timestamp that `before` has a candle for, `after` has one for. */
  ghost predicate KeepsTimes(before: seq<ChartCandle>, after: seq<ChartCandle>) {
    forall t :: CandleAt(before, t).Some? ==> CandleAt(after, t).Some?
  }

  /** What one load keeps, whatever arrives. */
  lemma LoadKeepsOrder(v: View, incoming: seq<ChartCandle>)
    requires StrictlyAscending(v.candles)
    ensures var next := OlderLoaded(v, incoming);
            && StrictlyAscending(next.candles)
            && KeepsTimes(v.candles, next.candles)
            && |next.candles| >= |v.candles|
            && (SmallRemainder(v) ==> SmallRemainder(next))
  {
    if v.candles != [] {
      var merged := Merged(v.candles, incoming);
      MergedIsMerge(v.candles, incoming);
      MergeCoversExisting(v.candles, incoming, merged);
      hide Merged, Covers;
      forall t ensures CandleAt(v.candles, t).Some? ==> CandleAt(merged, t).Some? {
        IncomingWins(v.candles, incoming, merged, t);
      }
    }
  }

  /** With ten candles loaded the window that a load stores is the one that is shown. */
  lemma LoadSettles(v: View, incoming: seq<ChartCandle>)
    requires StrictlyAscending(v.candles) && |v.candles| >= 10
    ensures Settled(OlderLoaded(v, incoming))
  {
    var merged := Merged(v.candles, incoming);
    MergedIsMerge(v.candles, incoming);
    AnchorOfMerge(v, incoming, merged);
    hide Merged, IsMerge, EntryFor;
  }

  /** Older candles go in front of the loaded ones. */
  lemma LoadKeepsSuffix(v: View, incoming: seq<ChartCandle>)
    requires StrictlyAscending(v.candles)
    requires v.candles != [] ==> AllOlder(v.candles, incoming)
    ensures EndsWith(OlderLoaded(v, incoming).candles, v.candles)
  {
    if v.candles != [] {
      MergedIsMerge(v.candles, incoming);
      OlderCandlesGoInFront(v.candles, incoming, Merged(v.candles, incoming));
    }
    hide Merged, IsMerge, EntryFor;
  }

  /**
   * Over any interleaving of gestures and loads the candles stay strictly ascending, no loaded
   * timestamp is lost, the shown window is in bounds for the candles then loaded, and the wheel
   * remainder stays below one candle. From ten candles on a settled window stays settled. If the
   * responses are older, as requested, the candles loaded at the start stay the last ones, unchanged.
   */
  lemma {:induction false} EventsKeepCandles(v: View, events: seq<Event>)
    requires StrictlyAscending(v.candles) && SmallRemainder(v)
    ensures var last := ReactAll(v, events);
            && StrictlyAscending(last.candles)
            && KeepsTimes(v.candles, last.candles)
            && |last.candles| >= |v.candles|
            && InBounds(Visible(last), |last.candles|)
            && SmallRemainder(last)
            && (|v.candles| >= 10 && Settled(v) ==> Settled(last))
            && (LoadsAreOlder(v, events) ==> EndsWith(last.candles, v.candles))
  {
    hide Perform, OlderLoaded, Settled, SmallRemainder, AllOlder, StrictlyAscending, EndsWith;
    if events == [] {
      assert EndsWith(v.candles, v.candles) by { EndsWithItself(v.candles); }
    } else {
      var rest, e := events[..|events| - 1], events[|events| - 1];
      EventsKeepCandles(v, rest);
      var before := ReactAll(v, rest);
      match e
      case Gestured(gesture) => GestureKeepsSettled(before, gesture);
      case OlderArrived(incoming) =>
        LoadKeepsOrder(before, incoming);
        if |before.candles| >= 10 {
          LoadSettles(before, incoming);
        }
        if LoadsAreOlder(v, events) {
          LoadKeepsSuffix(before, incoming);
          EndsWithIsTransitive(OlderLoaded(before, incoming).candles, before.candles, v.candles);
        }
    }
  }

  lemma EndsWithItself(candles: seq<ChartCandle>)
    ensures EndsWith(candles, candles)
  {
  }
}
