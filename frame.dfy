/** One frame of the timeline canvas (`drawEverything`): the background
    region first, then the ruler, the marker band, the timeline slots,
    the cursors and the add-slot buttons, each band starting where the
    one above it ends; the regions they register, in this order, are what
    the hover and click resolution of `HitTest` runs over. */
module Frame {
  import opened Wrappers
  import opened Bins
  import opened HitTest
  import opened Ruler
  import opened MarkerTracks
  import opened Timelines

  /** What a frame reads besides the elements: the visible window, the
      left buffer, the ruler height, the countdown and zoom, the timeline
      width, the band and slot dimensions, the active slot and how slot
      contents are drawn. */
  datatype FrameProps = FrameProps(
    visibleLeft: real, visibleWidth: real, leftBufferWidth: real, rulerHeight: real,
    countdown: real, pixelsPerSecond: real, timelineWidth: real,
    trackLayout: TrackLayout, dims: SlotDims, activeSlot: int, style: SlotStyle)

  /** Where time 0 of the countdown is drawn. */
  function TimelineOrigin(F: FrameProps): real
  {
    -F.visibleLeft + F.leftBufferWidth
  }

  function RulerPropsOf(F: FrameProps): RulerProps
  {
    RulerProps(TimelineOrigin(F), F.pixelsPerSecond, F.countdown, F.timelineWidth, F.visibleWidth,
               F.leftBufferWidth, F.rulerHeight)
  }

  /** A cursor's hit area: a 6-pixel strip over the whole canvas height. */
  function CursorRegion(t: real, F: FrameProps, cursorTip: real -> string): Region
  {
    var x := TimelineOrigin(F) + F.countdown * F.pixelsPerSecond + t * F.pixelsPerSecond;
    TipRegion(Rect(x - 3.0, 0.0, 6.0, MAX_TIMELINE_HEIGHT), [cursorTip(t)])
  }

  function CursorRegions(cursors: seq<real>, F: FrameProps, cursorTip: real -> string): seq<Region>
  {
    if cursors == [] then []
    else CursorRegions(cursors[..|cursors| - 1], F, cursorTip) + [CursorRegion(cursors[|cursors| - 1], F, cursorTip)]
  }

  /** `drawCursors`: one strip per cursor time, in the order given; it adds
      no height. The caller passes the view-only cursors whose `enabled`
      flag is set, followed by the main cursor, which is the order the
      canvas registers them in. */
  method DrawCursors(cursors: seq<real>, F: FrameProps, cursorTip: real -> string)
    returns (regions: seq<Region>, height: real)
    ensures regions == CursorRegions(cursors, F, cursorTip) && height == 0.0
  {
    regions := [];
    var i := 0;
    while i < |cursors|
      invariant 0 <= i <= |cursors|
      invariant regions == CursorRegions(cursors[..i], F, cursorTip)
    {
      assert cursors[..i + 1][..i] == cursors[..i];
      regions := regions + [CursorRegion(cursors[i], F, cursorTip)];
      i := i + 1;
    }
    assert cursors[..i] == cursors;
    height := 0.0;
  }

  /** The ruler as the frame sees it: its region and its height (its
      ticks are drawn but register nothing). */
  method RulerBand(F: FrameProps, mouseX: real, timeText: real -> string) returns (region: Region, height: real)
    requires F.pixelsPerSecond > 0.0
    ensures region == RulerRegion(RulerPropsOf(F), mouseX, timeText) && height == F.rulerHeight
  {
    var ticks;
    region, ticks, height := DrawRuler(RulerPropsOf(F), mouseX, timeText);
  }

  /** What the slots of a frame register when they start at `originY`:
      every slot's layers, drawn from time 0 after the countdown, then
      every slot's handle. */
  function SlotsRegions(slots: seq<seq<TimelineElem>>, F: FrameProps, originY: real): seq<Region>
  {
    ContentRegions(DrawnSlots(slots, TypeOf, F.activeSlot, false, originY, F.dims.slotHeight, |slots|), F.style,
                   DisplayOriginX(TimelineOrigin(F), F.countdown, F.pixelsPerSecond), F.pixelsPerSecond,
                   F.dims.slotHeight)
    + SlotHandles(|slots|, F.activeSlot, originY, F.dims.slotHeight, |slots|)
  }

  /** The slots as the frame sees them (never in export mode): what they
      register and their total height. */
  method SlotsBand(slots: seq<seq<TimelineElem>>, F: FrameProps, originY: real)
    returns (regions: seq<Region>, height: real)
    ensures regions == SlotsRegions(slots, F, originY)
    ensures height == SlotsHeight(|slots|, F.dims.slotHeight)
  {
    var drawn, countdownHeight;
    drawn, countdownHeight, regions, height :=
      DrawTimelines(slots, F.activeSlot, false, F.style, TimelineOrigin(F), originY, F.countdown,
                    F.pixelsPerSecond, F.dims);
  }

  function AddSlotRegions(slotCount: nat, originY: real, dims: SlotDims): seq<Region>
  {
    if slotCount < dims.maxSlots then
      [Region(Rect(4.0, originY + 2.0, 192.0, dims.addSlotButtonHeight - 4.0), None, Some(AddSlot), true, None),
       Region(Rect(200.0, originY + 2.0, 192.0, dims.addSlotButtonHeight - 4.0), None, Some(CloneActiveSlot), true, None)]
    else []
  }

  /** Where the slots start: below the ruler and the marker band. */
  function SlotsTop(markers: seq<Marker>, F: FrameProps): real
  {
    F.rulerHeight + BandHeight(markers, F.trackLayout)
  }

  /** Where the add-slot buttons start: below every slot. */
  function ButtonTop(markers: seq<Marker>, slotCount: nat, F: FrameProps): real
  {
    SlotsTop(markers, F) + SlotsHeight(slotCount, F.dims.slotHeight)
  }

  /** The total height of a frame: the ruler, the marker band, every slot
      and the add-slot button while another slot may be added. */
  function FrameHeight(markers: seq<Marker>, slotCount: nat, F: FrameProps): real
  {
    ButtonTop(markers, slotCount, F) + (if slotCount < F.dims.maxSlots then F.dims.addSlotButtonHeight else 0.0)
  }

  /** What the marker band registers: its tracks' markers between the
      ruler and the slots. */
  function MarkerBandRegions(markers: seq<Marker>, F: FrameProps, markerTip: Marker -> string): seq<Region>
  {
    BinRegions(Binned(markers, TrackOf), F.rulerHeight, SlotsTop(markers, F), F.trackLayout, TimelineOrigin(F),
               F.countdown, F.pixelsPerSecond, markerTip)
  }

  /** The marker band as the frame sees it: what it registers and where
      it ends. */
  method MarkerBand(F: FrameProps, markers: seq<Marker>, markerTip: Marker -> string)
    returns (regions: seq<Region>, bottom: real)
    ensures regions == MarkerBandRegions(markers, F, markerTip)
    ensures bottom == SlotsTop(markers, F)
  {
    var bandHeight;
    bandHeight, regions := DrawMarkerTracks(markers, TimelineOrigin(F), F.rulerHeight, F.trackLayout,
                                           F.countdown, F.pixelsPerSecond, markerTip);
    bottom := F.rulerHeight + bandHeight;
  }

  /** The marker band below the ruler and the slots below it; `slotsTop`
      is where the slots start. */
  method MarkersAndSlots(F: FrameProps, markers: seq<Marker>, slots: seq<seq<TimelineElem>>,
                            markerTip: Marker -> string)
    returns (regions: seq<Region>, slotsTop: real, height: real)
    ensures slotsTop == SlotsTop(markers, F)
    ensures regions == MarkerBandRegions(markers, F, markerTip)
                       + SlotsRegions(slots, F, slotsTop)
    ensures height == ButtonTop(markers, |slots|, F)
  {
    var markerRegions;
    markerRegions, slotsTop := MarkerBand(F, markers, markerTip);
    var slotRegions, slotsHeight := SlotsBand(slots, F, slotsTop);
    regions := markerRegions + slotRegions;
    height := slotsTop + slotsHeight;
  }

  /** The bands above the cursors: the background, the ruler, then the
      marker band and the slots, each starting where the one above it
      ends. */
  method UpperBands(F: FrameProps, markers: seq<Marker>, slots: seq<seq<TimelineElem>>,
                       mouseX: real, timeText: real -> string, markerTip: Marker -> string)
    returns (regions: seq<Region>, slotsTop: real, height: real)
    requires F.pixelsPerSecond > 0.0
    ensures slotsTop == SlotsTop(markers, F)
    ensures regions == [Background(F.visibleWidth)] + [RulerRegion(RulerPropsOf(F), mouseX, timeText)]
                       + (MarkerBandRegions(markers, F, markerTip)
                          + SlotsRegions(slots, F, slotsTop))
    ensures height == ButtonTop(markers, |slots|, F)
  {
    var rulerRegion, rulerHeight := RulerBand(F, mouseX, timeText);
    var lower;
    lower, slotsTop, height := MarkersAndSlots(F, markers, slots, markerTip);
    regions := [Background(F.visibleWidth)] + [rulerRegion] + lower;
  }

  /** The bands below the slots: the cursors, which add no height, then
      the add-slot buttons at `originY`. */
  method LowerBands(cursors: seq<real>, F: FrameProps, cursorTip: real -> string, slotCount: nat, originY: real)
    returns (regions: seq<Region>, height: real)
    ensures regions == CursorRegions(cursors, F, cursorTip) + AddSlotRegions(slotCount, originY, F.dims)
    ensures height == if slotCount < F.dims.maxSlots then F.dims.addSlotButtonHeight else 0.0
  {
    var cursorRegions, cursorsHeight := DrawCursors(cursors, F, cursorTip);
    var buttonRegions, buttonHeight := DrawAddSlotButton(slotCount, originY + cursorsHeight, F.dims);
    regions := cursorRegions + buttonRegions;
    height := cursorsHeight + buttonHeight;
  }

  /** `drawEverything`: register the background and draw the bands top to
      bottom, each at the height reached so far. */
  method DrawEverything(F: FrameProps, markers: seq<Marker>, slots: seq<seq<TimelineElem>>,
                           cursors: seq<real>, mouseX: real, timeText: real -> string,
                           markerTip: Marker -> string, cursorTip: real -> string)
    returns (regions: seq<Region>, height: real)
    requires F.pixelsPerSecond > 0.0
    ensures regions == [Background(F.visibleWidth)] + [RulerRegion(RulerPropsOf(F), mouseX, timeText)]
                       + (MarkerBandRegions(markers, F, markerTip)
                          + SlotsRegions(slots, F, SlotsTop(markers, F)))
                       + (CursorRegions(cursors, F, cursorTip) + AddSlotRegions(|slots|, ButtonTop(markers, |slots|, F), F.dims))
    ensures height == FrameHeight(markers, |slots|, F)
  {
    var upper, slotsTop, upperHeight := UpperBands(F, markers, slots, mouseX, timeText, markerTip);
    var lower, lowerHeight := LowerBands(cursors, F, cursorTip, |slots|, upperHeight);
    regions := upper + lower;
    height := upperHeight + lowerHeight;
  }

  /** A cursor is registered after the ruler and spans the whole height,
      so hovering a cursor on the ruler shows the cursor, not the ruler
      time (unless a later cursor or button is hit). */
  lemma CursorBeatsRuler(before: seq<Region>, cursors: seq<real>, F: FrameProps, cursorTip: real -> string,
                         after: seq<Region>, mx: real, my: real)
    requires LastHit(CursorRegions(cursors, F, cursorTip), mx, my) >= 0
    requires LastHit(after, mx, my) < 0
    ensures var cs := CursorRegions(cursors, F, cursorTip);
            LastHit(before + cs + after, mx, my) == |before| + LastHit(cs, mx, my)
  {
    var cs := CursorRegions(cursors, F, cursorTip);
    LastHitAppend(before + cs, after, mx, my);
    LastHitAppend(before, cs, mx, my);
  }
}
