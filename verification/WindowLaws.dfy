/** Laws of the candle window: bounds over every gesture sequence, zoom progress, wheel bookkeeping, anchoring. */
module WindowLaws {
  import opened Optional
  import opened Rounding
  import opened CandleMerge
  import opened CandleWindow

  // ----- every gesture sequence -----

  /** The stored window is the one that is shown. */
  predicate Settled(v: View) {
    var w := Visible(v);
    v.start == w.start && v.count == if w.count == 0 then None else Some(w.count)
  }

  lemma SetWindowSettles(v: View, start: int, count: int)
    ensures var next := SetWindow(v, start, count);
            && Settled(next)
            && Visible(next) == Normalized(|v.candles|, start, Some(count))
            && next.candles == v.candles && next.remainder == v.remainder
  {
  }

  function Distance(x: int, y: int): int {
    if x < y then y - x else x - y
  }

  /** At least ten of `total` candles, or all of them. */
  predicate Allowed(total: nat, count: int) {
    count <= total && (count >= 10 || count == total)
  }

  /** Of the allowed widths `w` has the nearest to `count`, and of the places for it the nearest to `start`. */
  ghost predicate IsNearest(total: nat, start: int, count: int, w: Window) {
    && Allowed(total, w.count) && 0 <= w.start <= total - w.count
    && (forall c :: Allowed(total, c) ==> Distance(w.count, count) <= Distance(c, count))
    && (forall s :: 0 <= s <= total - w.count ==> Distance(w.start, start) <= Distance(s, start))
  }

  /** What is shown is the allowed window nearest to the stored one; no count, or zero, asks for all candles. */
  lemma ShownIsNearest(v: View)
    ensures var total := |v.candles|;
            IsNearest(total, v.start, if v.count.None? || v.count.value == 0 then total else v.count.value, Visible(v))
  {
  }

  /** A drag stores and shows the allowed window nearest to the one it asks for, and changes nothing else. */
  lemma DragShowsNearest(v: View, start: int, count: int)
    ensures var total, next := |v.candles|, Perform(v, DragTo(start, count)); var w := Visible(next);
            && IsNearest(total, start, if count == 0 then total else count, w)
            && next == View(v.candles, w.start, if total == 0 then None else Some(w.count), v.remainder)
  {
  }

  /** The wheel remainder that is carried to the next event is less than one candle. */
  predicate SmallRemainder(v: View) {
    -1.0 < v.remainder < 1.0
  }

  lemma GestureKeepsSettled(v: View, g: Gesture)
    ensures Perform(v, g).candles == v.candles
    ensures Settled(v) ==> Settled(Perform(v, g))
    ensures g.DragTo? || g.ResetWindow? ==> Settled(Perform(v, g))
    ensures SmallRemainder(v) ==> SmallRemainder(Perform(v, g))
  {
    hide RoundRatio, DefaultCount, WheelDistance, Trunc, Settled, SetWindow, Normalized;
    match g
    case PanCandles(delta) => PanKeepsSettled(v, delta);
    case PanPages(direction) => PanKeepsSettled(v, direction * Max(1, RoundRatio(Visible(v).count, 2)));
    case ZoomStep(inward) =>
      var w := Visible(v);
      var next := ZoomCount(|v.candles|, w.count, inward);
      SetWindowSettles(v.(remainder := 0.0), RoundRatio(2 * w.start + w.count - next, 2), next);
    case WheelStep(pixels, width) =>
      var shift := WheelShift(v, pixels, width);
      var carried := v.(remainder := v.remainder + WheelDistance(v, pixels, width) - shift as real);
      TruncIsWholePart(v.remainder + WheelDistance(v, pixels, width));
      RemainderIsNotShown(v, carried);
      PanKeepsSettled(carried, shift);
    case DragTo(start, count) => SetWindowSettles(v, start, count);
    case ResetWindow =>
      var count := DefaultCount(|v.candles|);
      SetWindowSettles(v.(remainder := 0.0), Max(|v.candles| - count, 0), count);
  }

  lemma RemainderIsNotShown(v: View, carried: View)
    requires carried == v.(remainder := carried.remainder)
    ensures Visible(carried) == Visible(v) && Settled(carried) == Settled(v)
  {
  }

  lemma PanKeepsSettled(v: View, delta: int)
    ensures PanBy(v, delta).candles == v.candles && PanBy(v, delta).remainder == v.remainder
    ensures Settled(v) ==> Settled(PanBy(v, delta))
  {
  }

  /**
   * Over every sequence of pans, zooms, wheel steps, drags and resets the candles stay as they are,
   * the shown window stays in bounds, the carried wheel remainder stays below one candle, and a
   * settled stored window stays settled: what is stored is then itself in bounds.
   */
  lemma {:induction false} WindowStaysInBounds(v: View, gestures: seq<Gesture>)
    ensures var last := PerformAll(v, gestures);
            && last.candles == v.candles
            && InBounds(Visible(last), |v.candles|)
            && (SmallRemainder(v) ==> SmallRemainder(last))
            && (Settled(v) ==> Settled(last))
            && (Settled(v) && v.candles != [] ==>
                  last.count.Some? && InBounds(Window(last.start, last.count.value), |v.candles|))
  {
    hide Perform;
    if gestures != [] {
      var rest := gestures[..|gestures| - 1];
      WindowStaysInBounds(v, rest);
      GestureKeepsSettled(PerformAll(v, rest), gestures[|gestures| - 1]);
    }
  }

  /**
   * A pan moves the window by exactly the asked distance, stopped at the ends, and never changes its
   * width. It stores what it shows, unless everything is shown or it would leave the left end: then
   * nothing changes.
   */
  lemma PanMovesExactly(v: View, delta: int)
    ensures var w, next, total := Visible(v), Visible(PanBy(v, delta)), |v.candles|;
            && next.count == w.count
            && next.start == Max(0, Min(w.start + delta, total - w.count))
            && PanBy(v, delta) == if w.count == total || (w.start == 0 && delta < 0) then v
                                  else v.(start := next.start, count := Some(next.count))
  {
  }

  /** Panning there and back returns to the same window when the first pan was not stopped. */
  lemma PanBack(v: View, delta: int)
    requires 0 <= Visible(v).start + delta <= |v.candles| - Visible(v).count
    ensures Visible(PanBy(PanBy(v, delta), -delta)) == Visible(v)
  {
    PanMovesExactly(v, delta);
    PanMovesExactly(PanBy(v, delta), -delta);
    PanKeepsSettled(v, delta);
  }

  /** A page pan moves by half the window, halves up, per unit of direction, stopped at the ends. */
  lemma PanPageMovesHalf(v: View, direction: int)
    ensures var w, next, total := Visible(v), Visible(PanPage(v, direction)), |v.candles|;
            exists half :: w.count <= 2 * half <= w.count + 1
                           && PanPage(v, direction) == PanBy(v, direction * half)
                           && next == Window(Max(0, Min(w.start + direction * half, total - w.count)), w.count)
  {
    var w := Visible(v);
    var half := RoundRatio(w.count, 2);
    assert w.count <= 2 * half <= w.count + 1;
    PanMovesExactly(v, direction * half);
    if !CanPan(v) {
      assert Max(0, Min(w.start + direction * half, |v.candles| - w.count)) == w.start;
    }
    hide RoundRatio;
  }

  /**
   * Reset shows the latest candles: all of them up to 35, 34 of them up to 60, and beyond that 58
   * percent of them, to the nearest candle.
   */
  lemma ResetShowsLatest(v: View)
    ensures var total, w := |v.candles|, Visible(Reset(v));
            && w.start + w.count == total
            && Reset(v) == View(v.candles, w.start, if total == 0 then None else Some(w.count), 0.0)
            && (total <= 35 ==> w.count == total)
            && (35 < total <= 60 ==> w.count == 34)
            && (total > 60 ==> -50 <= 58 * total - 100 * w.count < 50)
  {
  }

  // ----- zoom -----

  /** `count` is 0.78 times `from`, to the nearest candle, halves up. */
  predicate IsNarrowed(from: int, count: int) {
    -50 <= 78 * from - 100 * count < 50
  }

  /** `count` is `from` divided by 0.78, to the nearest candle, halves up. */
  predicate IsWidened(from: int, count: int) {
    -39 <= 100 * from - 78 * count < 39
  }

  lemma ZoomCountMoves(total: nat, count: int, inward: bool)
    requires MinimumVisible(total) <= count <= total && total > 0
    ensures var next := ZoomCount(total, count, inward);
            && MinimumVisible(total) <= next <= total
            && (inward ==> if count == MinimumVisible(total) then next == count else next < count)
            && (!inward ==> if count == total then next == count else next > count)
    ensures inward ==> exists c :: IsNarrowed(count, c) && ZoomCount(total, count, inward) == Max(Min(10, total), c)
    ensures !inward ==> exists c :: IsWidened(count, c) && ZoomCount(total, count, inward) == Min(total, c)
  {
    if inward {
      assert IsNarrowed(count, RoundRatio(count * 39, 50));
    } else {
      assert IsWidened(count, RoundRatio(count * 50, 39));
    }
  }

  /** `start` keeps the centre of `w` for `count` candles, half a candle to the right if it must. */
  predicate IsCentred(w: Window, start: int, count: int) {
    0 <= (2 * start + count) - (2 * w.start + w.count) <= 1
  }

  lemma CentreRounds(w: Window, count: int)
    ensures IsCentred(w, RoundRatio(2 * w.start + w.count - count, 2), count)
  {
  }

  lemma AllowedWidthIsKept(total: nat, start: int, count: int)
    requires total > 0 && MinimumVisible(total) <= count <= total
    ensures Normalized(total, start, Some(count)) == Window(Max(0, Min(start, total - count)), count)
  {
  }

  /** A zoom to a new width stores and shows it, centred as the ends of the loaded candles allow. */
  lemma ZoomStores(v: View, inward: bool)
    requires v.candles != []
    ensures var total, w, zoomed := |v.candles|, Visible(v), Zoom(v, inward);
            var next := ZoomCount(total, w.count, inward);
            && Visible(zoomed).count == next
            && (next == w.count ==> zoomed == v)
            && (next != w.count ==>
                  && var start := RoundRatio(2 * w.start + w.count - next, 2);
                  && zoomed == View(v.candles, Visible(zoomed).start, Some(next), 0.0)
                  && Visible(zoomed).start == Max(0, Min(start, total - next)))
  {
    var total, w := |v.candles|, Visible(v);
    ZoomCountMoves(total, w.count, inward);
    var next := ZoomCount(total, w.count, inward);
    var start := RoundRatio(2 * w.start + w.count - next, 2);
    AllowedWidthIsKept(total, start, next);
    assert next > 0;
    hide ZoomCount, RoundRatio, Normalized, Visible, InBounds, MinimumVisible, Min, Max, SetWindow;
    SetWindowSettles(v.(remainder := 0.0), start, next);
  }

  /**
   * One zoom step. Zooming in narrows the window to 78 percent, to the nearest candle, but not below
   * the minimum; zooming out widens it by the same ratio, but not beyond everything; the width changes
   * strictly unless it is at that end already, and then nothing changes at all. The new window has
   * the old centre, shifted only as far as the ends of the loaded candles demand. It is what is
   * stored, and the wheel remainder is dropped.
   */
  lemma ZoomMoves(v: View, inward: bool)
    requires v.candles != []
    ensures var total, w, next := |v.candles|, Visible(v), Visible(Zoom(v, inward));
            && (inward ==> exists c :: IsNarrowed(w.count, c) && next.count == Max(Min(10, total), c))
            && (!inward ==> exists c :: IsWidened(w.count, c) && next.count == Min(total, c))
            && (inward ==> if w.count == Min(10, total) then next == w else next.count < w.count)
            && (!inward ==> if w.count == total then next == w else next.count > w.count)
            && (next.count == w.count ==> Zoom(v, inward) == v)
            && (next.count != w.count ==>
                  && Zoom(v, inward) == View(v.candles, next.start, Some(next.count), 0.0)
                  && exists s :: IsCentred(w, s, next.count) && next.start == Max(0, Min(s, total - next.count)))
  {
    ZoomStores(v, inward);
    ZoomCountMoves(|v.candles|, Visible(v).count, inward);
    CentreRounds(Visible(v), Visible(Zoom(v, inward)).count);
    hide Zoom, ZoomCount, RoundRatio, IsCentred, IsNarrowed, IsWidened, Normalized;
  }

  function Zooms(inward: bool, n: nat): seq<Gesture> {
    seq(n, _ => ZoomStep(inward))
  }

  lemma {:induction false} ZoomsKeepCandles(v: View, inward: bool, n: nat)
    ensures PerformAll(v, Zooms(inward, n)).candles == v.candles
    ensures n > 0 ==> PerformAll(v, Zooms(inward, n)) == Zoom(PerformAll(v, Zooms(inward, n - 1)), inward)
  {
    WindowStaysInBounds(v, Zooms(inward, n));
    hide Zoom;
    if n > 0 {
      assert Zooms(inward, n)[..n - 1] == Zooms(inward, n - 1);
    }
  }

  /** Zooming in far enough always reaches the minimum width: ten candles, or all of fewer. */
  lemma {:induction false} ZoomInReachesMinimum(v: View, n: nat)
    requires v.candles != []
    ensures Visible(PerformAll(v, Zooms(true, n))).count <= Max(MinimumVisible(|v.candles|), Visible(v).count - n)
    ensures n >= Visible(v).count ==> Visible(PerformAll(v, Zooms(true, n))).count == MinimumVisible(|v.candles|)
  {
    hide Zoom, Perform;
    ZoomsKeepCandles(v, true, n);
    if n > 0 {
      var before := PerformAll(v, Zooms(true, n - 1));
      ZoomInReachesMinimum(v, n - 1);
      ZoomsKeepCandles(v, true, n - 1);
      ZoomMoves(before, true);
    }
  }

  /** Zooming out far enough always shows every loaded candle. */
  lemma {:induction false} ZoomOutReachesAll(v: View, n: nat)
    requires v.candles != []
    ensures Visible(PerformAll(v, Zooms(false, n))).count >= Min(|v.candles|, Visible(v).count + n)
    ensures n >= |v.candles| ==> Visible(PerformAll(v, Zooms(false, n))) == Window(0, |v.candles|)
  {
    hide Zoom, Perform;
    ZoomsKeepCandles(v, false, n);
    if n > 0 {
      var before := PerformAll(v, Zooms(false, n - 1));
      ZoomOutReachesAll(v, n - 1);
      ZoomsKeepCandles(v, false, n - 1);
      ZoomMoves(before, false);
    }
  }

  // ----- wheel -----

  /** The view after wheel movements on a chart of fixed width. */
  function WheelAll(v: View, deltas: seq<real>, width: real): View {
    if deltas == [] then v
    else Wheel(WheelAll(v, deltas[..|deltas| - 1], width), deltas[|deltas| - 1], width)
  }

  /** The candles that those movements ask to move, in total. */
  function Requested(v: View, deltas: seq<real>, width: real): real {
    if deltas == [] then 0.0
    else Requested(v, deltas[..|deltas| - 1], width) + WheelDistance(v, deltas[|deltas| - 1], width)
  }

  /** The whole candles that they pan by, in total. */
  function Emitted(v: View, deltas: seq<real>, width: real): int {
    if deltas == [] then 0
    else
      var rest := deltas[..|deltas| - 1];
      Emitted(v, rest, width) + WheelShift(WheelAll(v, rest, width), deltas[|deltas| - 1], width)
  }

  /**
   * The pixels that one of `count` candles counts for on a chart `width` pixels wide: its share of the
   * chart, which counts as 240 pixels wide at least, or ten pixels if that is more.
   */
  function CandlePixels(count: int, width: real): (pixels: real)
    ensures pixels >= 10.0
  {
    var chart, c := if width < 240.0 then 240.0 else width, if count < 1 then 1.0 else count as real;
    if chart <= 10.0 * c then 10.0 else chart / c
  }

  /** `distance` candles, each `pixels` wide, cover a movement by `delta`. */
  predicate Spans(distance: real, delta: real, pixels: real) {
    distance * pixels == delta
  }

  /** A wheel movement asks for as many candles as its pixels cover, in its direction. */
  lemma WheelDistanceInPixels(v: View, delta: real, width: real)
    ensures Spans(WheelDistance(v, delta, width), delta, CandlePixels(Visible(v).count, width))
  {
    hide Normalized;
  }

  /**
   * One wheel event adds the distance that its pixels cover to what is carried, pans by the whole
   * candles of the sum, stopped at the ends, and carries the rest, which is less than one candle.
   */
  lemma WheelMovesExactly(v: View, delta: real, width: real)
    ensures var w, shift, next := Visible(v), WheelShift(v, delta, width), Wheel(v, delta, width);
            var distance := WheelDistance(v, delta, width);
            var carried := v.(remainder := v.remainder + distance - shift as real);
            && Spans(distance, delta, CandlePixels(w.count, width))
            && IsWholePart(shift, v.remainder + distance)
            && next == (if shift == 0 then carried else PanBy(carried, shift))
            && Visible(next) == Window(Max(0, Min(w.start + shift, |v.candles| - w.count)), w.count)
            && next.remainder == carried.remainder
            && SmallRemainder(next)
  {
    hide WheelDistance, Normalized, Spans, CandlePixels, IsWholePart;
    var shift := WheelShift(v, delta, width);
    var carried := v.(remainder := v.remainder + WheelDistance(v, delta, width) - shift as real);
    WheelDistanceInPixels(v, delta, width);
    TruncIsWholePart(v.remainder + WheelDistance(v, delta, width));
    hide Trunc;
    RemainderIsNotShown(v, carried);
    PanMovesExactly(carried, shift);
  }

  /** A movement by `delta` covers `n` candles, each `pixels` wide, in its direction, and `rest` of one more. */
  predicate CoversCandles(delta: real, n: int, rest: real, pixels: real) {
    && delta == (n as real + rest) * pixels
    && if delta >= 0.0 then n >= 0 && 0.0 <= rest < 1.0 else n <= 0 && -1.0 < rest <= 0.0
  }

  lemma WholePartCoversCandles(distance: real, n: int, delta: real, pixels: real)
    requires pixels > 0.0 && Spans(distance, delta, pixels) && IsWholePart(n, distance)
    ensures CoversCandles(delta, n, distance - n as real, pixels)
  {
    assert distance >= 0.0 <==> delta >= 0.0;
    assert n as real + (distance - n as real) == distance;
  }

  /**
   * A wheel event with nothing carried, in pixels: the window goes the way of the movement, right for a
   * positive one, by the whole candles that it covers, as far as the ends allow; the rest is carried.
   */
  lemma WheelFollowsPixels(v: View, delta: real, width: real) returns (n: int)
    requires v.remainder == 0.0
    ensures var w, next := Visible(v), Wheel(v, delta, width);
            && CoversCandles(delta, n, next.remainder, CandlePixels(w.count, width))
            && Visible(next) == Window(Max(0, Min(w.start + n, |v.candles| - w.count)), w.count)
  {
    hide *;
    n := WheelShift(v, delta, width);
    WheelDistanceInPixels(v, delta, width);
    WheelMovesExactly(v, delta, width);
    WholePartCoversCandles(WheelDistance(v, delta, width), n, delta, CandlePixels(Visible(v).count, width));
  }

  /**
   * Wheel bookkeeping: no movement is lost or invented. Over any number of wheel events on a chart of
   * fixed width, what they request plus what was carried before is exactly the whole candles that
   * they pan by plus what is carried after. With nothing carried before (as after every zoom, reset
   * and load) the requested distance differs from the emitted one by less than one candle.
   */
  lemma {:induction false} WheelLosesNothing(v: View, deltas: seq<real>, width: real)
    requires SmallRemainder(v)
    ensures var last := WheelAll(v, deltas, width);
            var requested, emitted := Requested(v, deltas, width), Emitted(v, deltas, width) as real;
            && last.candles == v.candles
            && Visible(last).count == Visible(v).count
            && v.remainder + requested == emitted + last.remainder
            && SmallRemainder(last)
            && (v.remainder == 0.0 ==> -1.0 < requested - emitted < 1.0)
  {
    hide Wheel, WheelShift;
    if deltas != [] {
      var rest, delta := deltas[..|deltas| - 1], deltas[|deltas| - 1];
      WheelLosesNothing(v, rest, width);
      var before := WheelAll(v, rest, width);
      WheelMovesExactly(before, delta, width);
      assert WheelDistance(before, delta, width) == WheelDistance(v, delta, width);
    }
  }

  // ----- anchoring -----

  lemma AnchorIsFound(v: View, merged: seq<ChartCandle>)
    requires StrictlyAscending(merged) && v.candles != [] && |merged| >= |v.candles|
    requires merged[|merged| - |v.candles|..] == v.candles
    ensures AfterOlder(v, merged).start == |merged| - |v.candles| + Visible(v).start
  {
  }

  lemma AnchoredWindow(v: View, merged: seq<ChartCandle>, offset: nat)
    requires v.candles != [] && |merged| == offset + |v.candles|
    requires AfterOlder(v, merged).start == offset + Visible(v).start
    ensures var total, w := |merged|, Visible(v);
            Visible(AfterOlder(v, merged)) ==
              if |v.candles| >= 10 || offset == 0 then Window(offset + w.start, w.count)
              else Window(total - Min(10, total), Min(10, total))
    ensures |v.candles| < 10 && offset > 0 ==> Visible(v) == Window(0, |v.candles|) && Min(10, |merged|) > |v.candles|
  {
  }

  /** `next` shows exactly what `v` shows, `offset` places further in, and its stored start needs no clamping. */
  ghost predicate SameView(v: View, next: View, offset: int) {
    && VisibleCandles(next) == VisibleCandles(v)
    && Visible(next) == Window(Visible(v).start + offset, Visible(v).count)
    && next.start == Visible(next).start
  }

  /** `v` shows all it has; `next` shows its last `count` candles, more than that, which end with those of `v`. */
  ghost predicate WidenedView(v: View, next: View, count: int) {
    && VisibleCandles(v) == v.candles
    && Visible(next) == Window(|next.candles| - count, count)
    && |VisibleCandles(next)| == count > |v.candles|
    && VisibleCandles(next)[count - |v.candles|..] == v.candles
  }

  lemma ShiftedViewIsSame(v: View, next: View, offset: nat)
    requires |next.candles| == offset + |v.candles| && next.candles[offset..] == v.candles
    requires Visible(next) == Window(offset + Visible(v).start, Visible(v).count)
    requires next.start == offset + Visible(v).start
    ensures SameView(v, next, offset)
  {
  }

  lemma WidenedViewEndsWithOld(v: View, next: View, offset: nat, count: int)
    requires |next.candles| == offset + |v.candles| && next.candles[offset..] == v.candles
    requires Visible(v) == Window(0, |v.candles|) && count > |v.candles|
    requires Visible(next) == Window(|next.candles| - count, count)
    ensures WidenedView(v, next, count)
  {
  }

  /**
   * Anchoring: when older candles are merged in, the visible candles stay identical exactly when at
   * least ten candles were loaded before or nothing new arrived. Then the window only shifts by the
   * number of new candles, without clamping; otherwise it is widened to the new minimum, and the
   * candles shown before, which are all that were loaded, are the last ones shown after.
   */
  lemma OlderCandlesKeepTheView(v: View, incoming: seq<ChartCandle>, merged: seq<ChartCandle>)
    requires StrictlyAscending(v.candles) && AllOlder(v.candles, incoming) && IsMerge(v.candles, incoming, merged)
    ensures var next, kept := AfterOlder(v, merged), |v.candles| >= 10 || NoneTimed(incoming);
            && next.candles == merged && next.remainder == 0.0
            && (VisibleCandles(next) == VisibleCandles(v) <==> kept)
            && (if kept then SameView(v, next, |merged| - |v.candles|) else WidenedView(v, next, Min(10, |merged|)))
  {
    OlderCandlesGoInFront(v.candles, incoming, merged);
    AnchorIsFound(v, merged);
    hide Visible, EntryFor, StrictlyAscending, IsMerge, AllOlder, NoneTimed, Min;
    var next, offset := AfterOlder(v, merged), |merged| - |v.candles|;
    AnchoredWindow(v, merged, offset);
    if |v.candles| >= 10 || NoneTimed(incoming) {
      ShiftedViewIsSame(v, next, offset);
    } else {
      WidenedViewEndsWithOld(v, next, offset, Min(10, |merged|));
    }
    hide VisibleCandles;
  }

  /** With one candle loaded, as a refresh leaves it, one older candle already changes what is shown. */
  lemma FewCandlesAreNotAnchored(c: ChartCandle, older: ChartCandle, merged: seq<ChartCandle>)
    requires c.time.Some? && older.time.Some? && older.time.value < c.time.value
    requires IsMerge([c], [older], merged)
    ensures var v := View([c], 0, Some(1), 0.0);
            VisibleCandles(v) == [c] && |VisibleCandles(AfterOlder(v, merged))| >= 2
  {
    var v := View([c], 0, Some(1), 0.0);
    OlderCandlesKeepTheView(v, [older], merged);
    assert !NoneTimed([older]) by { assert [older][0].time.Some?; }
    hide IsMerge, EntryFor, NoneTimed, Normalized, AfterOlder;
  }
}
