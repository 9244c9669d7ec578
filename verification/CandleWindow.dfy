/**
 * The visible window of the candle chart: zoom, pan, wheel and reset, and re-anchoring after older
 * candles are loaded (frontend/app.js). The two globals that these functions update are the fields
 * of `CandleModal`; `View` is their joint value, on which the meaning of each function is defined.
 */
module CandleWindow {
  import opened Optional
  import opened Rounding
  import opened CandleMerge

  datatype Window = Window(start: int, count: int)

  datatype View = View(candles: seq<ChartCandle>, start: int, count: Option<int>, remainder: real)

  function Min(x: int, y: int): int {
    if x < y then x else y
  }

  function Max(x: int, y: int): int {
    if x < y then y else x
  }

  function Larger(x: real, y: real): real {
    if x < y then y else x
  }

  function MinimumVisible(total: int): int {
    Min(10, total)
  }

  /** A window that lies inside the candles and is neither too narrow nor too wide. */
  predicate InBounds(w: Window, total: int) {
    MinimumVisible(total) <= w.count <= total && 0 <= w.start <= total - w.count
  }

  /** Bring a wanted window into bounds. A missing or zero count stands for all candles. */
  function Normalized(total: nat, start: int, count: Option<int>): (w: Window)
    ensures InBounds(w, total)
    ensures total > 0 && count.Some? && InBounds(Window(start, count.value), total) ==> w == Window(start, count.value)
    ensures count.None? ==> w == Window(0, total)
  {
    if total == 0 then Window(0, 0)
    else
      var wanted := if count.None? || count.value == 0 then total else count.value;
      var safeCount := Min(total, Max(MinimumVisible(total), wanted));
      Window(Min(Max(start, 0), Max(total - safeCount, 0)), safeCount)
  }

  function DefaultCount(total: nat): int {
    if total <= 35 then total
    else if total <= 60 then Min(total, 34)
    else Min(total, Max(MinimumVisible(total), RoundRatio(total * 29, 50)))
  }

  function Visible(v: View): (w: Window)
    ensures InBounds(w, |v.candles|)
  {
    Normalized(|v.candles|, v.start, v.count)
  }

  function VisibleCandles(v: View): seq<ChartCandle> {
    var w := Visible(v);
    v.candles[w.start..w.start + w.count]
  }

  // ----- gestures -----

  function SetWindow(v: View, start: int, count: int): View {
    var w := Normalized(|v.candles|, start, Some(count));
    v.(start := w.start, count := if w.count == 0 then None else Some(w.count))
  }

  function Reset(v: View): View {
    var count := DefaultCount(|v.candles|);
    SetWindow(v.(remainder := 0.0), Max(|v.candles| - count, 0), count)
  }

  predicate CanPan(v: View) {
    v.candles != [] && Visible(v).count < |v.candles|
  }

  /** Panning left of the first loaded candle asks for older candles instead of moving. */
  predicate AsksOlder(v: View, delta: int) {
    CanPan(v) && Visible(v).start == 0 && delta < 0
  }

  function PanBy(v: View, delta: int): View {
    if !CanPan(v) || AsksOlder(v, delta) then v else SetWindow(v, Visible(v).start + delta, Visible(v).count)
  }

  function PanPage(v: View, direction: int): View {
    if CanPan(v) then PanBy(v, direction * Max(1, RoundRatio(Visible(v).count, 2))) else v
  }

  function ZoomCount(total: nat, count: int, inward: bool): int {
    if inward then Max(MinimumVisible(total), RoundRatio(count * 39, 50))
    else Min(total, RoundRatio(count * 50, 39))
  }

  function Zoom(v: View, inward: bool): View {
    var total, w := |v.candles|, Visible(v);
    var next := ZoomCount(total, w.count, inward);
    if total == 0 || next == w.count then v
    else SetWindow(v.(remainder := 0.0), RoundRatio(2 * w.start + w.count - next, 2), next)
  }

  /** How many candles a wheel movement of `delta` pixels asks to move, on a chart `width` pixels wide. */
  function WheelDistance(v: View, delta: real, width: real): real {
    delta / Larger(Larger(width, 240.0) / (Max(Visible(v).count, 1) as real), 10.0)
  }

  /** The whole candles that a wheel event pans by; the rest is carried to the next event. */
  function WheelShift(v: View, delta: real, width: real): int {
    Trunc(v.remainder + WheelDistance(v, delta, width))
  }

  function Wheel(v: View, delta: real, width: real): View {
    var shift := WheelShift(v, delta, width);
    var carried := v.(remainder := v.remainder + WheelDistance(v, delta, width) - shift as real);
    if shift == 0 then carried else PanBy(carried, shift)
  }

  datatype Gesture =
    | PanCandles(delta: int)
    | PanPages(direction: int)
    | ZoomStep(inward: bool)
    | WheelStep(pixels: real, width: real)
    | DragTo(start: int, count: int)
    | ResetWindow

  function Perform(v: View, g: Gesture): View {
    match g
    case PanCandles(delta) => PanBy(v, delta)
    case PanPages(direction) => PanPage(v, direction)
    case ZoomStep(inward) => Zoom(v, inward)
    case WheelStep(pixels, width) => Wheel(v, pixels, width)
    case DragTo(start, count) => SetWindow(v, start, count)
    case ResetWindow => Reset(v)
  }

  function PerformAll(v: View, gestures: seq<Gesture>): View {
    if gestures == [] then v
    else Perform(PerformAll(v, gestures[..|gestures| - 1]), gestures[|gestures| - 1])
  }

  /** Older candles have been merged in: the window starts at the candle that was first in view. */
  function AfterOlder(v: View, merged: seq<ChartCandle>): View
    requires v.candles != []
  {
    var w := Visible(v);
    var anchor := EntryFor(merged, v.candles[w.start].time);
    View(merged, if anchor < |merged| then anchor else 0, Some(w.count), 0.0)
  }

  /** The response to a request for older candles has arrived; without a first timestamp none was made. */
  function OlderLoaded(v: View, incoming: seq<ChartCandle>): View {
    if v.candles == [] || v.candles[0].time.None? then v else AfterOlder(v, Merged(v.candles, incoming))
  }

  // ----- the mutable modal -----

  class CandleModal {
    var candles: seq<ChartCandle>
    var visibleStart: int
    var visibleCount: Option<int>
    var panRemainder: real

    /** The modal as it opens, before its first candles arrive. */
    constructor ()
      ensures State() == View([], 0, None, 0.0)
    {
      candles, visibleStart, visibleCount, panRemainder := [], 0, None, 0.0;
    }

    function State(): View
      reads this
    {
      View(candles, visibleStart, visibleCount, panRemainder)
    }

    method SetCandleWindow(start: int, count: int)
      modifies this
      ensures State() == SetWindow(old(State()), start, count)
    {
      var w := Normalized(|candles|, start, Some(count));
      visibleStart := w.start;
      visibleCount := if w.count == 0 then None else Some(w.count);
    }

    method ResetCandleWindow()
      modifies this
      ensures State() == Reset(old(State()))
    {
      var count := DefaultCount(|candles|);
      panRemainder := 0.0;
      SetCandleWindow(Max(|candles| - count, 0), count);
    }

    /** Pan; `moved` tells the caller to redraw, `asksOlder` to load older candles. */
    method PanCandleWindowByCandles(delta: int) returns (moved: bool, asksOlder: bool)
      modifies this
      ensures State() == PanBy(old(State()), delta)
      ensures moved <==> Visible(State()).start != Visible(old(State())).start
      ensures var shown := Visible(old(State()));
              asksOlder <==> shown.count < |candles| && shown.start == 0 && delta < 0
    {
      var window := Visible(State());
      if candles == [] || window.count >= |candles| {
        return false, false;
      }
      var nextStart := window.start + delta;
      if nextStart < 0 && window.start == 0 {
        return false, true;
      }
      SetCandleWindow(nextStart, window.count);
      moved, asksOlder := visibleStart != window.start, false;
    }

    method PanCandleWindow(direction: int) returns (moved: bool, asksOlder: bool)
      modifies this
      ensures State() == PanPage(old(State()), direction)
      ensures moved <==> Visible(State()).start != Visible(old(State())).start
      ensures var shown := Visible(old(State()));
              asksOlder <==> shown.count < |candles| && shown.start == 0 && direction < 0
    {
      var window := Visible(State());
      if candles == [] || window.count >= |candles| {
        return false, false;
      }
      var shift := Max(1, RoundRatio(window.count, 2));
      moved, asksOlder := PanCandleWindowByCandles(direction * shift);
    }

    method ZoomCandleWindow(delta: real)
      modifies this
      ensures State() == Zoom(old(State()), delta < 0.0)
    {
      hide RoundRatio, Normalized;
      var total := |candles|;
      if total == 0 {
        return;
      }
      var window := Visible(State());
      var nextCount := if delta < 0.0 then Max(MinimumVisible(total), RoundRatio(window.count * 39, 50))
                       else Min(total, RoundRatio(window.count * 50, 39));
      if nextCount == window.count {
        return;
      }
      panRemainder := 0.0;
      SetCandleWindow(RoundRatio(2 * window.start + window.count - nextCount, 2), nextCount);
    }

    method PanCandleWindowByWheel(delta: real, width: real) returns (moved: bool, asksOlder: bool)
      modifies this
      ensures State() == Wheel(old(State()), delta, width)
      ensures moved <==> Visible(State()).start != Visible(old(State())).start
      ensures var shown := Visible(old(State()));
              asksOlder <==> shown.count < |candles| && shown.start == 0 && WheelShift(old(State()), delta, width) < 0
    {
      hide Normalized, Trunc;
      var window := Visible(State());
      var candleWidth := Larger(width, 240.0) / (Max(window.count, 1) as real);
      panRemainder := panRemainder + delta / Larger(candleWidth, 10.0);
      var shift := Trunc(panRemainder);
      if shift == 0 {
        return false, false;
      }
      panRemainder := panRemainder - shift as real;
      moved, asksOlder := PanCandleWindowByCandles(shift);
    }

    /** Merge in the response to a request for older candles; `loaded` is the number it reports. */
    method LoadOlderCandles(incoming: seq<ChartCandle>) returns (loaded: nat)
      modifies this
      ensures State() == OlderLoaded(old(State()), incoming)
      ensures old(candles) == [] || old(candles)[0].time.None? ==> State() == old(State())
      ensures old(candles) != [] && old(candles)[0].time.Some? ==>
                && IsMerge(old(candles), incoming, candles)
                && visibleCount == Some(Visible(old(State())).count) && panRemainder == 0.0
      ensures loaded == Max(|candles| - |old(candles)|, 0)
    {
      if candles == [] || candles[0].time.None? {
        return 0;
      }
      var window := Visible(State());
      var visibleFirst := candles[window.start].time;
      var previousCount := |candles|;
      var merged := MergeCandleSets(candles, incoming);
      loaded := Max(|merged| - previousCount, 0);
      var anchor := EntryFor(merged, visibleFirst);
      candles := merged;
      visibleStart := if anchor < |merged| then anchor else 0;
      visibleCount := Some(window.count);
      panRemainder := 0.0;
    }
  }
}
