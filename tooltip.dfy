/** Tooltip box layout of the timeline (`drawTip`): the box is sized from
    the widths of its text lines and the number of buff icons, then placed
    above or below the mouse and centred on it when it fits. Text widths
    come from the canvas (`measureText`) and are inputs here. */
module Tooltip {
  import opened Wrappers

  const LINE_HEIGHT: real := 14.0
  const IMAGE_SIZE: real := 24.0
  const H_PADDING: real := 8.0
  const V_PADDING: real := 4.0
  const BOX_TO_MOUSE: real := 4.0
  const MOUSE_HEIGHT: real := 11.0

  /** Top-left corner and size of the drawn box. */
  datatype TipBox = TipBox(x: real, y: real, w: real, h: real)

  function Max(a: real, b: real): real
  {
    if a >= b then a else b
  }

  /** The widest line, starting from -1 as the source does. */
  function MaxLineWidth(widths: seq<real>): real
  {
    if widths == [] then -1.0
    else Max(MaxLineWidth(widths[..|widths| - 1]), widths[|widths| - 1])
  }

  /** The box width before placement. */
  function BoxWidth(widths: seq<real>, numImages: nat): real
  {
    var w := MaxLineWidth(widths) + 2.0 * H_PADDING;
    if numImages > 0 then Max(w, H_PADDING + numImages as real * (IMAGE_SIZE + H_PADDING)) else w
  }

  /** The box height before placement. */
  function BoxHeight(lineCount: nat, numImages: nat): real
  {
    var h := LINE_HEIGHT * lineCount as real + 2.0 * V_PADDING;
    if numImages > 0 then h + IMAGE_SIZE + V_PADDING else h
  }

  /** Vertical placement: above the cursor when there is room, else below it. */
  function PlaceY(mouseY: real, h: real): real
  {
    if mouseY >= h + BOX_TO_MOUSE then mouseY - h - BOX_TO_MOUSE
    else mouseY + MOUSE_HEIGHT + BOX_TO_MOUSE
  }

  /** Horizontal placement: centred on the cursor when that fits, otherwise
      against the left or the right edge of the canvas. */
  function PlaceX(mouseX: real, w: real, canvasWidth: real): real
  {
    if mouseX - w / 2.0 >= 0.0 && mouseX + w / 2.0 < canvasWidth then mouseX - w / 2.0
    else if mouseX - w / 2.0 < 0.0 then 0.0
    else canvasWidth - w
  }

  /** The box `drawTip` draws for lines of the given widths, or nothing for no lines. */
  function TipLayout(widths: seq<real>, numImages: nat, mouseX: real, mouseY: real, canvasWidth: real)
    : Option<TipBox>
  {
    if widths == [] then None
    else
      var w := BoxWidth(widths, numImages);
      var h := BoxHeight(|widths|, numImages);
      Some(TipBox(PlaceX(mouseX, w, canvasWidth), PlaceY(mouseY, h), w, h))
  }

  /** `drawTip`, keeping only the numbers it feeds to the canvas. */
  method DrawTip(widths: seq<real>, numImages: nat, mouseX: real, mouseY: real, canvasWidth: real)
    returns (box: Option<TipBox>)
    ensures box == TipLayout(widths, numImages, mouseX, mouseY, canvasWidth)
  {
    if |widths| == 0 {
      return None;
    }
    var maxLineWidth := -1.0;
    var i := 0;
    while i < |widths|
      invariant 0 <= i <= |widths|
      invariant maxLineWidth == MaxLineWidth(widths[..i])
    {
      assert widths[..i + 1][..i] == widths[..i];
      maxLineWidth := Max(maxLineWidth, widths[i]);
      i := i + 1;
    }
    assert widths[..i] == widths;
    var boxWidth := maxLineWidth + 2.0 * H_PADDING;
    var boxHeight := LINE_HEIGHT * |widths| as real + 2.0 * V_PADDING;
    if numImages > 0 {
      boxWidth := Max(boxWidth, H_PADDING + numImages as real * (IMAGE_SIZE + H_PADDING));
      boxHeight := boxHeight + IMAGE_SIZE + V_PADDING;
    }
    var x := mouseX;
    var y := mouseY;
    if y >= boxHeight + BOX_TO_MOUSE {
      y := y - boxHeight - BOX_TO_MOUSE;
    } else {
      y := y + MOUSE_HEIGHT + BOX_TO_MOUSE;
    }
    if x - boxWidth / 2.0 >= 0.0 && x + boxWidth / 2.0 < canvasWidth {
      x := x - boxWidth / 2.0;
    } else if x - boxWidth / 2.0 < 0.0 {
      x := 0.0;
    } else {
      x := canvasWidth - boxWidth;
    }
    box := Some(TipBox(x, y, boxWidth, boxHeight));
  }

  /** The running maximum bounds every line and is one of them (or the
      initial -1 when all lines are narrower). */
  lemma {:induction false} MaxLineWidthIsMax(widths: seq<real>)
    ensures forall i :: 0 <= i < |widths| ==> widths[i] <= MaxLineWidth(widths)
    ensures MaxLineWidth(widths) == -1.0 || exists i :: 0 <= i < |widths| && MaxLineWidth(widths) == widths[i]
  {
    if widths != [] {
      var init := widths[..|widths| - 1];
      MaxLineWidthIsMax(init);
      assert forall i :: 0 <= i < |init| ==> widths[i] == init[i];
      if MaxLineWidth(widths) != -1.0 && MaxLineWidth(widths) != widths[|widths| - 1] {
        var j :| 0 <= j < |init| && MaxLineWidth(init) == init[j];
        assert MaxLineWidth(widths) == widths[j];
      }
    }
  }

  /** The box leaves 8 pixels of padding on each side of every line, is 14
      pixels per line plus padding high, and makes room for one 32-pixel
      column per icon and a 28-pixel icon row. */
  lemma TipFitsContents(widths: seq<real>, numImages: nat, mouseX: real, mouseY: real, canvasWidth: real)
    requires widths != []
    ensures var b := TipLayout(widths, numImages, mouseX, mouseY, canvasWidth);
      && b.Some?
      && (forall i :: 0 <= i < |widths| ==> b.value.w >= widths[i] + 2.0 * H_PADDING)
      && (numImages == 0 ==> b.value.w == MaxLineWidth(widths) + 16.0 && b.value.h == 14.0 * |widths| as real + 8.0)
      && (numImages > 0 ==> b.value.w >= 8.0 + 32.0 * numImages as real && b.value.h == 14.0 * |widths| as real + 36.0)
  {
    MaxLineWidthIsMax(widths);
  }

  /** The box never covers the cursor: it ends four pixels above the
      cursor's tip, or starts four pixels below the cursor's 11-pixel body. */
  lemma TipAvoidsCursor(widths: seq<real>, numImages: nat, mouseX: real, mouseY: real, canvasWidth: real)
    requires widths != []
    ensures var b := TipLayout(widths, numImages, mouseX, mouseY, canvasWidth).value;
      (b.y >= 0.0 && b.y + b.h + BOX_TO_MOUSE == mouseY) || b.y == mouseY + MOUSE_HEIGHT + BOX_TO_MOUSE
    ensures var b := TipLayout(widths, numImages, mouseX, mouseY, canvasWidth).value;
      b.y + b.h + BOX_TO_MOUSE == mouseY <==> mouseY >= b.h + BOX_TO_MOUSE
  {
  }

  /** A box no wider than the canvas is drawn entirely inside it
      horizontally, and it is centred on the cursor whenever centring fits. */
  lemma TipInsideCanvas(widths: seq<real>, numImages: nat, mouseX: real, mouseY: real, canvasWidth: real)
    requires widths != []
    ensures var b := TipLayout(widths, numImages, mouseX, mouseY, canvasWidth).value;
      b.w <= canvasWidth ==> 0.0 <= b.x && b.x + b.w <= canvasWidth
    ensures var b := TipLayout(widths, numImages, mouseX, mouseY, canvasWidth).value;
      mouseX - b.w / 2.0 >= 0.0 && mouseX + b.w / 2.0 < canvasWidth ==> b.x + b.w / 2.0 == mouseX
  {
  }
}
