/** The timeline's pointer interaction (`testInteraction` and the frame
    effect of `TimelineCanvas`): every drawn element registers a rectangle
    with a hover tip, a click handler, a pointer-cursor flag and icons; the
    last rectangle under the mouse in drawing order wins, and the winner's
    handler fires on a click frame. The module-level globals are the fields
    of one `Interaction` object. */
module HitTest {
  import opened Wrappers
  import opened Tooltip

  /** Maximum height of the timeline canvas (`c_maxTimelineHeight`). */
  const MAX_TIMELINE_HEIGHT: real := 400.0

  datatype Rect = Rect(x: real, y: real, w: real, h: real)

  /** The half-open hit area [x, x+w) x [y, y+h). */
  predicate Contains(r: Rect, mx: real, my: real)
  {
    r.x <= mx < r.x + r.w && r.y <= my < r.y + r.h
  }

  /** An icon handed to the tooltip (the key of the image table). */
  type Image = string

  /** The click handlers the timeline registers, by what they do. */
  datatype ClickAction =
    | ClickBackground             // unselect everything, show the current state
    | DeleteMarker(markerTime: real, markerTrack: int)   // the marker drawn there
    | RulerClick(displayTime: real)
    | SelectAction(actionIndex: int)
    | DoNothing                   // `() => {}` of non-interactive slots
    | SetActiveSlot(slot: nat)
    | RemoveSlot(slot: nat)
    | AddSlot
    | CloneActiveSlot

  /** One call of `testInteraction`. */
  datatype Region = Region(
    rect: Rect,
    hoverTip: Option<seq<string>>,
    onClick: Option<ClickAction>,
    pointerMouse: bool,
    hoverImages: Option<seq<Option<Image>>>)

  /** A region with a rectangle and a tip only. */
  function TipRegion(r: Rect, tip: seq<string>): Region
  {
    Region(r, Some(tip), None, false, None)
  }

  /** The whole-canvas background region registered first in every frame. */
  function Background(visibleWidth: real): Region
  {
    Region(Rect(0.0, 0.0, visibleWidth, MAX_TIMELINE_HEIGHT), None, Some(ClickBackground), false, None)
  }

  /** Index of the last region containing the mouse, or -1. */
  function LastHit(rs: seq<Region>, mx: real, my: real): (i: int)
    ensures -1 <= i < |rs|
    ensures i >= 0 ==> Contains(rs[i].rect, mx, my)
    ensures i >= 0 ==> forall j :: i < j < |rs| ==> !Contains(rs[j].rect, mx, my)
    ensures i == -1 <==> forall j :: 0 <= j < |rs| ==> !Contains(rs[j].rect, mx, my)
  {
    if rs == [] then -1
    else if Contains(rs[|rs| - 1].rect, mx, my) then |rs| - 1
    else LastHit(rs[..|rs| - 1], mx, my)
  }

  /** Registering the background first changes nothing for the mouse
      positions some later region covers, and makes every position inside
      the visible canvas resolve to some region. */
  lemma BackgroundYields(visibleWidth: real, rs: seq<Region>, mx: real, my: real)
    ensures LastHit(rs, mx, my) >= 0 ==>
      LastHit([Background(visibleWidth)] + rs, mx, my) == LastHit(rs, mx, my) + 1
    ensures LastHit(rs, mx, my) < 0 && Contains(Background(visibleWidth).rect, mx, my) ==>
      LastHit([Background(visibleWidth)] + rs, mx, my) == 0
  {
    var all := [Background(visibleWidth)] + rs;
    assert forall j :: 0 <= j < |rs| ==> all[j + 1] == rs[j];
    assert all[0] == Background(visibleWidth);
    var k := LastHit(all, mx, my);
    if k > 0 {
      assert all[k] == rs[k - 1];
    }
  }

  /** Regions registered after `a` take precedence: when one of `b` is
      under the mouse, the winner is among them. */
  lemma LastHitAppend(a: seq<Region>, b: seq<Region>, mx: real, my: real)
    ensures LastHit(b, mx, my) >= 0 ==> LastHit(a + b, mx, my) == |a| + LastHit(b, mx, my)
    ensures LastHit(b, mx, my) < 0 ==> LastHit(a + b, mx, my) == LastHit(a, mx, my)
    ensures LastHit(b, mx, my) >= 0 ==> (a + b)[|a| + LastHit(b, mx, my)] == b[LastHit(b, mx, my)]
  {
    var ab := a + b;
    assert forall j :: 0 <= j < |b| ==> ab[|a| + j] == b[j];
    assert forall j :: 0 <= j < |a| ==> ab[j] == a[j];
  }

  class Interaction {
    var mouseX: real
    var mouseY: real
    var mouseHovered: bool
    var isClickUpdate: bool
    var activeHoverTip: Option<seq<string>>
    var activeHoverTipImages: Option<seq<Option<Image>>>
    var activeOnClick: Option<ClickAction>
    var pointerMouse: bool

    constructor ()
      ensures mouseX == 0.0 && mouseY == 0.0 && !mouseHovered && !isClickUpdate
      ensures activeHoverTip == None && activeHoverTipImages == None && activeOnClick == None && !pointerMouse
    {
      mouseX := 0.0;
      mouseY := 0.0;
      mouseHovered := false;
      isClickUpdate := false;
      activeHoverTip := None;
      activeHoverTipImages := None;
      activeOnClick := None;
      pointerMouse := false;
    }

    /** The hover state holds exactly what region `r` registered. */
    predicate Shows(r: Region)
      reads this
    {
      activeHoverTip == r.hoverTip && activeHoverTipImages == r.hoverImages
      && activeOnClick == r.onClick && pointerMouse == r.pointerMouse
    }

    /** `testInteraction`: a region under the mouse overwrites all four
        hover globals; any other region leaves them alone. */
    method TestInteraction(r: Region)
      modifies this`activeHoverTip, this`activeHoverTipImages, this`activeOnClick, this`pointerMouse
      ensures Contains(r.rect, mouseX, mouseY) ==> Shows(r)
      ensures !Contains(r.rect, mouseX, mouseY) ==>
        activeHoverTip == old(activeHoverTip) && activeHoverTipImages == old(activeHoverTipImages)
        && activeOnClick == old(activeOnClick) && pointerMouse == old(pointerMouse)
    {
      if mouseX >= r.rect.x && mouseX < r.rect.x + r.rect.w && mouseY >= r.rect.y && mouseY < r.rect.y + r.rect.h {
        activeHoverTip := r.hoverTip;
        activeHoverTipImages := r.hoverImages;
        activeOnClick := r.onClick;
        pointerMouse := r.pointerMouse;
      }
    }

    /** Registering regions in drawing order: the last one under the mouse wins. */
    method RegisterAll(rs: seq<Region>)
      modifies this`activeHoverTip, this`activeHoverTipImages, this`activeOnClick, this`pointerMouse
      ensures var k := LastHit(rs, mouseX, mouseY);
        k >= 0 ==> Shows(rs[k])
      ensures LastHit(rs, mouseX, mouseY) < 0 ==>
        activeHoverTip == old(activeHoverTip) && activeHoverTipImages == old(activeHoverTipImages)
        && activeOnClick == old(activeOnClick) && pointerMouse == old(pointerMouse)
    {
      var i := 0;
      while i < |rs|
        invariant 0 <= i <= |rs|
        invariant var k := LastHit(rs[..i], mouseX, mouseY);
          k >= 0 ==> Shows(rs[k])
        invariant LastHit(rs[..i], mouseX, mouseY) < 0 ==>
          activeHoverTip == old(activeHoverTip) && activeHoverTipImages == old(activeHoverTipImages)
          && activeOnClick == old(activeOnClick) && pointerMouse == old(pointerMouse)
      {
        assert rs[..i + 1][..i] == rs[..i];
        TestInteraction(rs[i]);
        i := i + 1;
      }
      assert rs[..i] == rs;
    }

    /** `timelineCanvasOnMouseMove`. */
    method MouseMove(x: real, y: real)
      modifies this`mouseX, this`mouseY
      ensures mouseX == x && mouseY == y
    {
      mouseX := x;
      mouseY := y;
    }

    /** `timelineCanvasOnMouseEnter` and `timelineCanvasOnMouseLeave`. */
    method SetHovered(hovered: bool)
      modifies this`mouseHovered
      ensures mouseHovered == hovered
    {
      mouseHovered := hovered;
    }

    /** `timelineCanvasOnClick`: clicks are ignored while the simulation loops. */
    method Click(shouldLoop: bool)
      modifies this`isClickUpdate
      ensures isClickUpdate == (old(isClickUpdate) || !shouldLoop)
    {
      if !shouldLoop {
        isClickUpdate := true;
      }
    }

    /** One redraw: reset the tip and the click handler (not the icons, not
        the pointer flag), register the background and then `regions` in
        drawing order, draw the tip and fire the handler when the mouse is
        over the canvas, ask for a repaint when the pointer flag changed, and
        clear the click flag. `measure` stands for the canvas text metrics. */
    method Frame(visibleWidth: real, regions: seq<Region>, measure: string -> real)
      returns (fired: Option<ClickAction>, tip: Option<TipBox>, repaint: bool)
      modifies this`activeHoverTip, this`activeHoverTipImages, this`activeOnClick, this`pointerMouse,
               this`isClickUpdate
      ensures var all := [Background(visibleWidth)] + regions;
        var k := LastHit(all, mouseX, mouseY);
        && (k >= 0 ==> Shows(all[k]))
        && (k < 0 ==> activeHoverTip == None && activeOnClick == None
                      && activeHoverTipImages == old(activeHoverTipImages) && pointerMouse == old(pointerMouse))
      ensures fired == if mouseHovered && old(isClickUpdate) then activeOnClick else None
      ensures !mouseHovered || activeHoverTip.None? ==> tip == None
      ensures mouseHovered && activeHoverTip.Some? ==>
        var lines := activeHoverTip.value;
        var n := if activeHoverTipImages.Some? then |activeHoverTipImages.value| else 0;
        tip == TipLayout(seq(|lines|, i requires 0 <= i < |lines| => measure(lines[i])), n, mouseX, mouseY, visibleWidth)
      ensures repaint == (pointerMouse != old(pointerMouse))
      ensures !isClickUpdate
    {
      activeHoverTip := None;
      activeOnClick := None;
      var cachedPointerMouse := pointerMouse;
      RegisterAll([Background(visibleWidth)] + regions);
      tip := None;
      fired := None;
      if mouseHovered {
        if activeHoverTip.Some? {
          var lines := activeHoverTip.value;
          var widths := seq(|lines|, i requires 0 <= i < |lines| => measure(lines[i]));
          var n := if activeHoverTipImages.Some? then |activeHoverTipImages.value| else 0;
          tip := DrawTip(widths, n, mouseX, mouseY, visibleWidth);
        }
        if isClickUpdate && activeOnClick.Some? {
          fired := activeOnClick;
        }
      }
      repaint := cachedPointerMouse != pointerMouse;
      isClickUpdate := false;
    }
  }

  /** Over the visible canvas a frame always resolves to some region, and it
      resolves to the background exactly when no later region is under the
      mouse. */
  lemma FrameResolves(visibleWidth: real, regions: seq<Region>, mx: real, my: real)
    requires 0.0 <= mx < visibleWidth && 0.0 <= my < MAX_TIMELINE_HEIGHT
    ensures LastHit([Background(visibleWidth)] + regions, mx, my) >= 0
    ensures LastHit([Background(visibleWidth)] + regions, mx, my) == 0 <==> LastHit(regions, mx, my) < 0
  {
    BackgroundYields(visibleWidth, regions, mx, my);
  }
}
