/** The time ruler at the top of the timeline (`drawRuler`): a clickable
    strip that jumps to the historical state at the time under the mouse,
    a labelled tick every 5 seconds and, when zoomed in far enough, an
    unlabelled tick every second, culled to the visible width. */
module Ruler {
  import opened Wrappers
  import opened HitTest

  /** Ticks farther than this outside the visible width are not drawn. */
  const CULL_THRESHOLD: real := 50.0
  /** Unlabelled ticks need at least this many pixels per second. */
  const MINOR_TICK_MIN_PPS: real := 6.0
  const MAJOR_TICK_HEIGHT: real := 10.0
  const MINOR_TICK_HEIGHT: real := 6.0

  /** What the ruler reads: its origin, the zoom (`scale * 100` pixels
      per second), the countdown the timeline is drawn with, the width of
      the whole timeline, the right bound of what is drawn, the left
      buffer that is not clickable and the ruler height. */
  datatype RulerProps = RulerProps(
    originX: real, pixelsPerSecond: real, countdown: real, timelineWidth: real,
    xUpperBound: real, leftBufferWidth: real, rulerHeight: real)

  /** In image export the ruler spans up to the game time; otherwise the
      visible width. */
  function XUpperBound(exportMode: bool, gameTime: real, countdown: real, pixelsPerSecond: real,
                       visibleWidth: real): real
  {
    if exportMode then (gameTime + countdown) * pixelsPerSecond else visibleWidth
  }

  function CountdownPadding(P: RulerProps): real
  {
    P.countdown * P.pixelsPerSecond
  }

  /** The time under the mouse (`timeFromPositionAndScale` less the countdown). */
  function RulerDisplayTime(P: RulerProps, mouseX: real): real
    requires P.pixelsPerSecond > 0.0
  {
    (mouseX - P.originX) / P.pixelsPerSecond - P.countdown
  }

  /** What clicking the ruler at a display time does. */
  datatype RulerClickEffect = ShowHistorical(time: real) | ShowCurrent

  /** The ruler's click handler: the historical state when the time lies
      between the start of the countdown and the current display time,
      the current state otherwise. */
  function ClickEffect(displayTime: real, currentDisplayTime: real, configCountdown: real): RulerClickEffect
  {
    if displayTime < currentDisplayTime && displayTime >= -configCountdown then ShowHistorical(displayTime)
    else ShowCurrent
  }

  /** The ruler's one region; the leftmost buffer is left unclickable. */
  function RulerRegion(P: RulerProps, mouseX: real, timeText: real -> string): Region
    requires P.pixelsPerSecond > 0.0
  {
    var t := RulerDisplayTime(P, mouseX);
    Region(Rect(P.leftBufferWidth, 0.0, P.xUpperBound - P.leftBufferWidth, P.rulerHeight),
           Some([timeText(t)]), Some(RulerClick(t)), false, None)
  }

  datatype Tick = Tick(sec: int, pos: real, height: real, labelled: bool)

  function TickPos(sec: int, P: RulerProps): real
  {
    P.originX + (sec as real) * P.pixelsPerSecond + CountdownPadding(P)
  }

  /** The tick drawn for second `sec`: labelled and taller on multiples of 5. */
  function MakeTick(sec: int, P: RulerProps): Tick
  {
    var major := sec % 5 == 0;
    Tick(sec, TickPos(sec, P), if major then MAJOR_TICK_HEIGHT else MINOR_TICK_HEIGHT, major)
  }

  /** The loops visit non-negative seconds while they lie left of the
      timeline's end and negative seconds while they lie right of the
      countdown's start. */
  predicate Reached(sec: int, P: RulerProps)
  {
    if sec >= 0 then (sec as real) * P.pixelsPerSecond < P.timelineWidth - CountdownPadding(P)
    else (sec as real) * P.pixelsPerSecond >= -CountdownPadding(P)
  }

  /** `drawRulerMark` culls ticks far outside the drawn width. */
  predicate Visible(sec: int, P: RulerProps)
  {
    -CULL_THRESHOLD <= TickPos(sec, P) <= P.xUpperBound + CULL_THRESHOLD
  }

  /** Whether second `sec` gets a tick at all. */
  predicate Drawn(sec: int, P: RulerProps)
  {
    Reached(sec, P) && Visible(sec, P) && (sec % 5 == 0 || P.pixelsPerSecond >= MINOR_TICK_MIN_PPS)
  }

  predicate HasTick(ticks: seq<Tick>, sec: int)
  {
    exists k :: 0 <= k < |ticks| && ticks[k].sec == sec
  }

  predicate WellFormed(ticks: seq<Tick>, P: RulerProps)
  {
    forall k :: 0 <= k < |ticks| ==> ticks[k] == MakeTick(ticks[k].sec, P)
  }

  predicate Distinct(ticks: seq<Tick>)
  {
    forall i, j :: 0 <= i < j < |ticks| ==> ticks[i].sec != ticks[j].sec
  }

  lemma MulMono(s: int, t: int, pps: real)
    requires s <= t && pps > 0.0
    ensures (s as real) * pps <= (t as real) * pps
  {
    assert ((t - s) as real) * pps >= 0.0;
  }

  lemma MulMonoReal(a: real, b: real, pps: real)
    requires a <= b && pps > 0.0
    ensures a * pps <= b * pps
  {
    assert (b - a) * pps >= 0.0;
  }

  /** A reached non-negative second is at most `(B / pps).Floor`. */
  lemma BelowFloor(sec: int, bound: real, pps: real)
    requires pps > 0.0 && (sec as real) * pps < bound
    ensures sec <= (bound / pps).Floor
  {
    var q := bound / pps;
    assert q * pps == bound;
    if (sec as real) >= q {
      MulMonoReal(q, sec as real, pps);
    }
  }

  /** A reached negative second is at least `(C / pps).Floor`. */
  lemma AboveFloor(sec: int, bound: real, pps: real)
    requires pps > 0.0 && (sec as real) * pps >= bound
    ensures sec >= (bound / pps).Floor
  {
    var q := bound / pps;
    assert q * pps == bound;
    if (sec as real) < q {
      MulMonoReal(sec as real, q, pps);
    }
  }

  /** Two distinct multiples of 5 are at least 5 apart. */
  lemma OnGridBelow(s: int, t: int)
    requires s % 5 == 0 && t % 5 == 0 && s < t
    ensures s <= t - 5
  {
    var a, b := s / 5, t / 5;
    assert s == 5 * a && t == 5 * b;
  }

  lemma HasTickSnoc(ticks: seq<Tick>, t: Tick)
    ensures forall s :: HasTick(ticks + [t], s) <==> HasTick(ticks, s) || s == t.sec
  {
    forall s | HasTick(ticks + [t], s)
      ensures HasTick(ticks, s) || s == t.sec
    {
      var k :| 0 <= k < |ticks| + 1 && (ticks + [t])[k].sec == s;
      if k < |ticks| {
        assert ticks[k].sec == s;
      }
    }
    forall s | HasTick(ticks, s)
      ensures HasTick(ticks + [t], s)
    {
      var k :| 0 <= k < |ticks| && ticks[k].sec == s;
      assert (ticks + [t])[k].sec == s;
    }
    assert (ticks + [t])[|ticks|].sec == t.sec;
  }

  /** The point of a loop's grid below `sec` is `sec` less one step. */
  lemma GridBelow(s: int, sec: int, major: bool)
    requires major ==> s % 5 == 0 && sec % 5 == 0
    requires s < sec
    ensures s <= sec - GridStep(major)
  {
    if major {
      OnGridBelow(s, sec);
    }
  }

  /** Among non-negative seconds, a forward loop reaches an initial run. */
  lemma ReachedForwardMono(a: int, b: int, P: RulerProps)
    requires P.pixelsPerSecond > 0.0 && 0 <= a <= b
    ensures Reached(b, P) ==> Reached(a, P)
  {
    MulMono(a, b, P.pixelsPerSecond);
  }

  /** Among negative seconds, a backward loop reaches a final run. */
  lemma ReachedBackwardMono(a: int, b: int, P: RulerProps)
    requires P.pixelsPerSecond > 0.0 && a <= b < 0
    ensures Reached(a, P) ==> Reached(b, P)
  {
    MulMono(a, b, P.pixelsPerSecond);
  }

  /** Where a forward loop stopped decides which grid seconds it reached. */
  lemma ForwardReachAt(sec: int, major: bool, P: RulerProps, s: int)
    requires P.pixelsPerSecond > 0.0
    requires sec >= 0 && (major ==> sec % 5 == 0)
    requires !Reached(sec, P)
    requires sec == 0 || Reached(sec - GridStep(major), P)
    requires s >= 0 && (major ==> s % 5 == 0)
    ensures Reached(s, P) <==> s < sec
  {
    if s < sec {
      GridBelow(s, sec, major);
      ReachedForwardMono(s, sec - GridStep(major), P);
    } else {
      ReachedForwardMono(sec, s, P);
    }
  }

  /** Where a backward loop stopped decides which grid seconds it reached. */
  lemma BackwardReachAt(sec: int, major: bool, P: RulerProps, s: int)
    requires P.pixelsPerSecond > 0.0
    requires sec < 0 && (major ==> sec % 5 == 0)
    requires !Reached(sec, P)
    requires sec == -GridStep(major) || Reached(sec + GridStep(major), P)
    requires s < 0 && (major ==> s % 5 == 0)
    ensures Reached(s, P) <==> s > sec
  {
    if s > sec {
      GridBelow(sec, s, major);
      GridBelow(s, 0, major);
      ReachedBackwardMono(sec + GridStep(major), s, P);
    } else {
      ReachedBackwardMono(s, sec, P);
    }
  }

  /** The seconds a loop draws: the multiples of 5 for the labelled
      loops, the others for the unlabelled ones. */
  predicate OnGrid(s: int, major: bool)
  {
    if major then s % 5 == 0 else s % 5 != 0
  }

  /** How far a loop advances per iteration. */
  function GridStep(major: bool): int
  {
    if major then 5 else 1
  }

  /** The ticks a loop has drawn once it has visited every second of its
      grid strictly between `lo` and `hi`. */
  ghost predicate DrawnBetween(ticks: seq<Tick>, lo: int, hi: int, major: bool, P: RulerProps)
  {
    && (forall s :: HasTick(ticks, s) <==> lo < s < hi && OnGrid(s, major) && Visible(s, P))
    && (forall k :: 0 <= k < |ticks| ==> lo < ticks[k].sec < hi)
    && WellFormed(ticks, P) && Distinct(ticks)
  }

  /** The tick a loop draws at `sec`, if any. */
  function Visit(ticks: seq<Tick>, sec: int, major: bool, P: RulerProps): seq<Tick>
  {
    if OnGrid(sec, major) && Visible(sec, P) then ticks + [MakeTick(sec, P)] else ticks
  }

  /** No second strictly between two neighbouring points of a loop's
      grid is on that grid. */
  lemma GridGap(sec: int, major: bool, s: int)
    requires major ==> sec % 5 == 0
    requires sec < s < sec + GridStep(major)
    ensures !OnGrid(s, major)
  {
    if major && s % 5 == 0 {
      OnGridBelow(sec, s);
    }
  }

  /** One iteration of a forward loop extends what it has drawn by `sec`. */
  lemma ForwardStep(ticks: seq<Tick>, lo: int, sec: int, major: bool, P: RulerProps)
    requires lo < sec && (major ==> sec % 5 == 0)
    requires DrawnBetween(ticks, lo, sec, major, P)
    ensures DrawnBetween(Visit(ticks, sec, major, P), lo, sec + GridStep(major), major, P)
  {
    var next := Visit(ticks, sec, major, P);
    if OnGrid(sec, major) && Visible(sec, P) {
      HasTickSnoc(ticks, MakeTick(sec, P));
    }
    forall s | sec < s < sec + GridStep(major)
      ensures !OnGrid(s, major)
    {
      GridGap(sec, major, s);
    }
  }

  /** One iteration of a backward loop extends what it has drawn by `sec`. */
  lemma BackwardStep(ticks: seq<Tick>, sec: int, hi: int, major: bool, P: RulerProps)
    requires sec < hi && (major ==> sec % 5 == 0)
    requires DrawnBetween(ticks, sec, hi, major, P)
    ensures DrawnBetween(Visit(ticks, sec, major, P), sec - GridStep(major), hi, major, P)
  {
    var next := Visit(ticks, sec, major, P);
    if OnGrid(sec, major) && Visible(sec, P) {
      HasTickSnoc(ticks, MakeTick(sec, P));
    }
    forall s | sec - GridStep(major) < s < sec
      ensures !OnGrid(s, major)
    {
      GridGap(sec - GridStep(major), major, s);
    }
  }

  /** Where a forward loop may be: on its grid from 0 on, every earlier
      grid second reached. */
  ghost predicate ForwardInv(sec: int, major: bool, P: RulerProps)
  {
    sec >= 0 && (major ==> sec % 5 == 0) && (sec == 0 || Reached(sec - GridStep(major), P))
  }

  /** Where a backward loop may be: on its grid below 0, every later grid
      second reached. */
  ghost predicate BackwardInv(sec: int, major: bool, P: RulerProps)
  {
    sec < 0 && (major ==> sec % 5 == 0) && (sec == -GridStep(major) || Reached(sec + GridStep(major), P))
  }

  /** A forward iteration from a reached second keeps the loop on track. */
  lemma ForwardIter(sec: int, major: bool, P: RulerProps)
    requires ForwardInv(sec, major, P) && Reached(sec, P)
    ensures ForwardInv(sec + GridStep(major), major, P)
  {
    var next := sec + GridStep(major);
    assert next - GridStep(major) == sec;
    if major {
      assert next % 5 == 0;
    }
  }

  /** A backward iteration from a reached second keeps the loop on track. */
  lemma BackwardIter(sec: int, major: bool, P: RulerProps)
    requires BackwardInv(sec, major, P) && Reached(sec, P)
    ensures BackwardInv(sec - GridStep(major), major, P)
  {
    var next := sec - GridStep(major);
    assert next + GridStep(major) == sec;
    if major {
      assert next % 5 == 0;
    }
  }

  /** A forward loop that stopped at `sec` has drawn exactly the visible
      reached seconds of its grid from 0 on. */
  lemma ForwardDone(ticks: seq<Tick>, sec: int, major: bool, P: RulerProps)
    requires P.pixelsPerSecond > 0.0
    requires ForwardInv(sec, major, P) && !Reached(sec, P)
    requires DrawnBetween(ticks, -1, sec, major, P)
    ensures forall s :: HasTick(ticks, s) <==> s >= 0 && OnGrid(s, major) && Reached(s, P) && Visible(s, P)
    ensures WellFormed(ticks, P) && Distinct(ticks)
  {
    forall s | s >= 0 && OnGrid(s, major)
      ensures Reached(s, P) <==> s < sec
    {
      ForwardReachAt(sec, major, P, s);
    }
  }

  /** A backward loop that stopped at `sec` has drawn exactly the visible
      reached seconds of its grid below 0. */
  lemma BackwardDone(ticks: seq<Tick>, sec: int, major: bool, P: RulerProps)
    requires P.pixelsPerSecond > 0.0
    requires BackwardInv(sec, major, P) && !Reached(sec, P)
    requires DrawnBetween(ticks, sec, 0, major, P)
    ensures forall s :: HasTick(ticks, s) <==> s < 0 && OnGrid(s, major) && Reached(s, P) && Visible(s, P)
    ensures WellFormed(ticks, P) && Distinct(ticks)
  {
    forall s | s < 0 && OnGrid(s, major)
      ensures Reached(s, P) <==> s > sec
    {
      BackwardReachAt(sec, major, P, s);
    }
  }

  /** The first loop: unlabelled ticks at non-negative seconds. */
  method MinorTicksForward(P: RulerProps) returns (ticks: seq<Tick>)
    requires P.pixelsPerSecond > 0.0
    ensures forall s :: HasTick(ticks, s) <==> s >= 0 && s % 5 != 0 && Reached(s, P) && Visible(s, P)
    ensures WellFormed(ticks, P) && Distinct(ticks)
  {
    var bound := P.timelineWidth - CountdownPadding(P);
    ghost var hi := (bound / P.pixelsPerSecond).Floor;
    ticks := [];
    var sec := 0;
    while (sec as real) * P.pixelsPerSecond < bound
      invariant ForwardInv(sec, false, P)
      invariant DrawnBetween(ticks, -1, sec, false, P)
      decreases hi - sec
    {
      BelowFloor(sec, bound, P.pixelsPerSecond);
      ForwardStep(ticks, -1, sec, false, P);
      ForwardIter(sec, false, P);
      ticks := Visit(ticks, sec, false, P);
      sec := sec + 1;
    }
    ForwardDone(ticks, sec, false, P);
  }

  /** The second loop: unlabelled ticks at negative seconds. */
  method MinorTicksBackward(P: RulerProps) returns (ticks: seq<Tick>)
    requires P.pixelsPerSecond > 0.0
    ensures forall s :: HasTick(ticks, s) <==> s < 0 && s % 5 != 0 && Reached(s, P) && Visible(s, P)
    ensures WellFormed(ticks, P) && Distinct(ticks)
  {
    var bound := -CountdownPadding(P);
    ghost var lo := (bound / P.pixelsPerSecond).Floor;
    ticks := [];
    var sec := -1;
    while (sec as real) * P.pixelsPerSecond >= bound
      invariant BackwardInv(sec, false, P)
      invariant DrawnBetween(ticks, sec, 0, false, P)
      decreases sec - lo
    {
      AboveFloor(sec, bound, P.pixelsPerSecond);
      BackwardStep(ticks, sec, 0, false, P);
      BackwardIter(sec, false, P);
      ticks := Visit(ticks, sec, false, P);
      sec := sec - 1;
    }
    BackwardDone(ticks, sec, false, P);
  }

  /** The third loop: labelled ticks at non-negative multiples of 5. */
  method MajorTicksForward(P: RulerProps) returns (ticks: seq<Tick>)
    requires P.pixelsPerSecond > 0.0
    ensures forall s :: HasTick(ticks, s) <==> s >= 0 && s % 5 == 0 && Reached(s, P) && Visible(s, P)
    ensures WellFormed(ticks, P) && Distinct(ticks)
  {
    var bound := P.timelineWidth - CountdownPadding(P);
    ghost var hi := (bound / P.pixelsPerSecond).Floor;
    ticks := [];
    var sec := 0;
    while (sec as real) * P.pixelsPerSecond < bound
      invariant ForwardInv(sec, true, P)
      invariant DrawnBetween(ticks, -1, sec, true, P)
      decreases hi - sec
    {
      BelowFloor(sec, bound, P.pixelsPerSecond);
      ForwardStep(ticks, -1, sec, true, P);
      ForwardIter(sec, true, P);
      ticks := Visit(ticks, sec, true, P);
      sec := sec + 5;
    }
    ForwardDone(ticks, sec, true, P);
  }

  /** The fourth loop: labelled ticks at negative multiples of 5. */
  method MajorTicksBackward(P: RulerProps) returns (ticks: seq<Tick>)
    requires P.pixelsPerSecond > 0.0
    ensures forall s :: HasTick(ticks, s) <==> s < 0 && s % 5 == 0 && Reached(s, P) && Visible(s, P)
    ensures WellFormed(ticks, P) && Distinct(ticks)
  {
    var bound := -CountdownPadding(P);
    ghost var lo := (bound / P.pixelsPerSecond).Floor;
    ticks := [];
    var sec := -5;
    while (sec as real) * P.pixelsPerSecond >= bound
      invariant BackwardInv(sec, true, P)
      invariant DrawnBetween(ticks, sec, 0, true, P)
      decreases sec - lo
    {
      AboveFloor(sec, bound, P.pixelsPerSecond);
      BackwardStep(ticks, sec, 0, true, P);
      BackwardIter(sec, true, P);
      ticks := Visit(ticks, sec, true, P);
      sec := sec - 5;
    }
    BackwardDone(ticks, sec, true, P);
  }

  lemma AppendTicks(a: seq<Tick>, b: seq<Tick>, P: RulerProps)
    requires WellFormed(a, P) && WellFormed(b, P) && Distinct(a) && Distinct(b)
    requires forall s :: HasTick(a, s) ==> !HasTick(b, s)
    ensures WellFormed(a + b, P) && Distinct(a + b)
    ensures forall s :: HasTick(a + b, s) <==> HasTick(a, s) || HasTick(b, s)
  {
    var ab := a + b;
    forall i, j | 0 <= i < j < |ab|
      ensures ab[i].sec != ab[j].sec
    {
      if i < |a| && j >= |a| {
        assert HasTick(a, ab[i].sec);
        assert ab[j] == b[j - |a|];
      }
    }
    forall s | HasTick(ab, s)
      ensures HasTick(a, s) || HasTick(b, s)
    {
      var k :| 0 <= k < |ab| && ab[k].sec == s;
      if k >= |a| {
        assert b[k - |a|].sec == s;
      }
    }
    forall s | HasTick(b, s)
      ensures HasTick(ab, s)
    {
      var k :| 0 <= k < |b| && b[k].sec == s;
      assert ab[|a| + k].sec == s;
    }
    forall s | HasTick(a, s)
      ensures HasTick(ab, s)
    {
      var k :| 0 <= k < |a| && a[k].sec == s;
      assert ab[k].sec == s;
    }
  }

  /** `drawRuler`: the clickable strip, then the ticks in the order of the
      four loops; the ruler height is returned. */
  method DrawRuler(P: RulerProps, mouseX: real, timeText: real -> string)
    returns (region: Region, ticks: seq<Tick>, height: real)
    requires P.pixelsPerSecond > 0.0
    ensures region == RulerRegion(P, mouseX, timeText)
    ensures forall s :: HasTick(ticks, s) <==> Drawn(s, P)
    ensures WellFormed(ticks, P) && Distinct(ticks)
    ensures height == P.rulerHeight
  {
    var displayTime := (mouseX - P.originX) / P.pixelsPerSecond - P.countdown;
    region := Region(Rect(P.leftBufferWidth, 0.0, P.xUpperBound - P.leftBufferWidth, P.rulerHeight),
                     Some([timeText(displayTime)]), Some(RulerClick(displayTime)), false, None);
    ticks := [];
    if P.pixelsPerSecond >= MINOR_TICK_MIN_PPS {
      var forward := MinorTicksForward(P);
      var backward := MinorTicksBackward(P);
      AppendTicks(forward, backward, P);
      ticks := forward + backward;
    }
    var majorForward := MajorTicksForward(P);
    AppendTicks(ticks, majorForward, P);
    ticks := ticks + majorForward;
    var majorBackward := MajorTicksBackward(P);
    AppendTicks(ticks, majorBackward, P);
    ticks := ticks + majorBackward;
    height := P.rulerHeight;
  }

  /** The region's time and the tick positions use the same mapping: the
      time read off under the mouse is placed back at the mouse. */
  lemma DisplayTimeRoundTrip(P: RulerProps, mouseX: real)
    requires P.pixelsPerSecond > 0.0
    ensures P.originX + (RulerDisplayTime(P, mouseX) + P.countdown) * P.pixelsPerSecond == mouseX
  {
    var q := (mouseX - P.originX) / P.pixelsPerSecond;
    assert q * P.pixelsPerSecond == mouseX - P.originX;
  }

  /** Clicking the ruler at a point shows the historical state exactly
      when the time there lies in [-countdown, now), and then at that time. */
  lemma RulerClickShowsHistory(P: RulerProps, mouseX: real, now: real, configCountdown: real)
    requires P.pixelsPerSecond > 0.0
    ensures var t := RulerDisplayTime(P, mouseX);
      && (ClickEffect(t, now, configCountdown).ShowHistorical? <==> -configCountdown <= t < now)
      && (ClickEffect(t, now, configCountdown).ShowHistorical? ==>
            P.originX + (ClickEffect(t, now, configCountdown).time + P.countdown) * P.pixelsPerSecond == mouseX)
  {
    DisplayTimeRoundTrip(P, mouseX);
  }

  /** Zoomed out below 6 pixels per second only the labelled ticks on
      multiples of 5 remain; labels fall exactly on multiples of 5. */
  lemma ZoomedOutOnlyMajor(ticks: seq<Tick>, P: RulerProps)
    requires WellFormed(ticks, P)
    requires forall s :: HasTick(ticks, s) <==> Drawn(s, P)
    requires P.pixelsPerSecond < MINOR_TICK_MIN_PPS
    ensures forall k :: 0 <= k < |ticks| ==>
              ticks[k].sec % 5 == 0 && ticks[k].labelled && ticks[k].height == MAJOR_TICK_HEIGHT
  {
    forall k | 0 <= k < |ticks|
      ensures ticks[k].sec % 5 == 0
    {
      assert HasTick(ticks, ticks[k].sec);
    }
  }
}
