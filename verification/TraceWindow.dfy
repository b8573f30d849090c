/** Where a span's bar sits inside the waterfall: the trace's time window and each bar's
    offset and width in percent of it. Times and percentages are reals. */
module TraceWindow {

  datatype Bar = Bar(start: real, duration: real)

  datatype Window = Window(start: real, end: real, duration: real)

  datatype Geometry = Geometry(left: real, width: real)

  const MIN_WIDTH := 0.4

  function Max(a: real, b: real): real {
    if a < b then b else a
  }

  function End(b: Bar): real {
    b.start + Max(0.0, b.duration)
  }

  /** The least interval that covers every span, durations below zero counting as zero. */
  ghost predicate Tight(bars: seq<Bar>, w: Window) {
    && (forall b <- bars :: w.start <= b.start && End(b) <= w.end)
    && (exists b <- bars :: b.start == w.start)
    && (exists b <- bars :: End(b) == w.end)
  }

  method ComputeWindow(bars: seq<Bar>) returns (w: Window)
    ensures bars == [] ==> w == Window(0.0, 0.0, 0.0)
    ensures bars != [] ==> Tight(bars, w) && w.duration == w.end - w.start >= 0.0
  {
    if bars == [] {
      return Window(0.0, 0.0, 0.0);
    }
    var start, end := bars[0].start, End(bars[0]);
    for i := 1 to |bars|
      invariant Tight(bars[..i], Window(start, end, 0.0))
    {
      assert bars[..i + 1] == bars[..i] + [bars[i]];
      if bars[i].start < start { start := bars[i].start; }
      if End(bars[i]) > end { end := End(bars[i]); }
      assert bars[i] in bars[..i + 1];
    }
    assert bars[..|bars|] == bars;
    w := Window(start, end, Max(0.0, end - start));
    assert bars[0] in bars;
  }

  function Clamp(x: real, lo: real, hi: real): real {
    var y := if x < lo then lo else x;
    if y > hi then hi else y
  }

  function Percent(part: real, whole: real): real
    requires whole > 0.0
  {
    part / whole * 100.0
  }

  function Place(b: Bar, w: Window): Geometry {
    if w.duration <= 0.0 then Geometry(0.0, 100.0) else
    var left := Clamp(Percent(b.start - w.start, w.duration), 0.0, 100.0);
    var width := Clamp(Max(Percent(Max(0.0, b.duration), w.duration), MIN_WIDTH), 0.0, 100.0 - left);
    Geometry(left, width)
  }

  lemma PercentMono(a: real, b: real, whole: real)
    requires whole > 0.0
    ensures a <= b <==> Percent(a, whole) <= Percent(b, whole)
  {
    assert a == a / whole * whole && b == b / whole * whole;
    if a <= b {
      assert (b / whole - a / whole) * whole >= 0.0;
    } else {
      assert (a / whole - b / whole) * whole > 0.0;
    }
  }

  lemma PercentSum(a: real, b: real, whole: real)
    requires whole > 0.0
    ensures Percent(a, whole) + Percent(b, whole) == Percent(a + b, whole)
    ensures Percent(0.0, whole) == 0.0 && Percent(whole, whole) == 100.0
  {
    assert a / whole + b / whole == (a + b) / whole;
  }

  /** No bar overflows the track, for any span and any window. */
  lemma BarFits(b: Bar, w: Window)
    ensures var g := Place(b, w); 0.0 <= g.left <= 100.0 && 0.0 <= g.width && g.left + g.width <= 100.0
  {
    hide Percent;
  }

  /** Inside its own trace's window a bar starts at its exact offset, and a bar no narrower than
      the floor has its exact width. */
  lemma BarExact(bars: seq<Bar>, w: Window, b: Bar)
    requires b in bars && Tight(bars, w) && w.duration == w.end - w.start > 0.0
    ensures var g := Place(b, w);
            var width := Percent(Max(0.0, b.duration), w.duration);
            && g.left == Percent(b.start - w.start, w.duration)
            && (MIN_WIDTH <= width ==> g.width == width)
  {
    hide Percent;
    var offset, len := b.start - w.start, Max(0.0, b.duration);
    PercentMono(0.0, offset, w.duration);
    PercentMono(offset + len, w.duration, w.duration);
    PercentMono(0.0, len, w.duration);
    PercentSum(offset, len, w.duration);
  }

  /** The floor that is meant to keep every bar visible fails exactly for bars that start in
      the last 0.4 percent of the window. */
  lemma VisibleCondition(b: Bar, w: Window)
    requires w.duration > 0.0
    ensures Place(b, w).width >= MIN_WIDTH <==> Percent(b.start - w.start, w.duration) <= 100.0 - MIN_WIDTH
  {
    hide Percent;
  }

  /** An instantaneous span that closes the trace gets no width at all. */
  lemma ClosingInstantInvisible()
    ensures Place(Bar(10.0, 0.0), Window(0.0, 10.0, 10.0)) == Geometry(100.0, 0.0)
  {
    PercentSum(0.0, 0.0, 10.0);
  }
}
