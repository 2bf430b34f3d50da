/** The timeline slots (`drawTimelines` and `drawAddSlotButton`): each slot
    bins its elements by kind and is drawn one slot height below the
    previous one, its layers registering their hover regions in a fixed
    order; the slot handles follow every slot. Image-export mode draws only
    the active slot, at the top, without the slot handles. */
module Timelines {
  import opened Wrappers
  import opened Sequences
  import opened Bins
  import opened HitTest
  import Skills
  import PotencyMarks

  /** The element kinds a slot holds (`ElemType`, slot part). */
  datatype ElemType =
    | Skill | DamageMark | HealingMark | AggroMark | MPTickMark | LucidMark
    | MeditateTickMark | AutoTickMark | WarningMark

  /** The switches of `TimelineDrawOptions`. */
  datatype DrawOptions = DrawOptions(drawMPTickMarks: bool, drawHealingMarks: bool, drawDamageMarks: bool,
                                     drawBuffIndicators: bool)

  /** Dimensions defined outside the canvas (`TimelineDimensions`,
      `MAX_TIMELINE_SLOTS`). */
  datatype SlotDims = SlotDims(slotHeight: real, addSlotButtonHeight: real, maxSlots: int)

  /** A slot as drawn: its index, its top, whether its skills are
      interactive, and its elements binned by kind. */
  datatype DrawnSlot<E> = DrawnSlot(slot: nat, y: real, isActive: bool, bins: seq<Bin<ElemType, E>>)

  /** A tick, lucid or warning mark: its time and the text after the time in
      its hover line (the source description of a tick, the source
      description with the skill name filled in for a lucid mark, the
      localised message of a warning). */
  datatype TickMark = TickMark(displayTime: real, text: string)

  /** The elements a slot holds (`TimelineElem`, slot part). */
  datatype TimelineElem =
    | SkillItem(skill: Skills.SkillElem)
    | PotencyItem(mark: PotencyMarks.PotencyMark)
    | MPTickItem(tick: TickMark)
    | LucidItem(tick: TickMark)
    | MeditateTickItem(tick: TickMark)
    | AutoTickItem(tick: TickMark)
    | WarningItem(tick: TickMark)

  /** The `type` field the slot's elements are binned by. */
  function TypeOf(e: TimelineElem): ElemType
  {
    match e
    case SkillItem(_) => Skill
    case PotencyItem(m) =>
      if m.kind.DamageMark? then DamageMark else if m.kind.HealingMark? then HealingMark else AggroMark
    case MPTickItem(_) => MPTickMark
    case LucidItem(_) => LucidMark
    case MeditateTickItem(_) => MeditateTickMark
    case AutoTickItem(_) => AutoTickMark
    case WarningItem(_) => WarningMark
  }

  /** What the slot layers read besides the elements: the draw options, the
      skill-row dimensions and cover table, the `toFixed(3)` time format of
      the tick hover lines, and the queries and text the skill and potency
      tips are made from. */
  datatype SlotStyle = SlotStyle(
    opts: DrawOptions, skillButtonHeight: real, slotPaddingTop: real, slotPaddingBottom: real,
    coverInfo: seq<Skills.CoverInfo>, tickTime: real -> string,
    bossUntargetable: real -> bool, potencyLine: PotencyMarks.HoverLine -> string,
    skillTip: Skills.SkillElem -> seq<string>, hasImage: Skills.BuffKey -> bool)

  function SlotY(slot: nat, originY: real, slotHeight: real): real
  {
    originY + slot as real * slotHeight
  }

  /** The height of `slotCount` slots. */
  function SlotsHeight(slotCount: nat, slotHeight: real): real
  {
    slotHeight * slotCount as real
  }

  /** The slots among the first `n` that are drawn, in slot order. */
  function DrawnSlots<E>(slots: seq<seq<E>>, typeOf: E -> ElemType, active: int, exportMode: bool,
                         originY: real, slotHeight: real, n: nat): seq<DrawnSlot<E>>
    requires n <= |slots|
  {
    if n == 0 then []
    else
      DrawnSlots(slots, typeOf, active, exportMode, originY, slotHeight, n - 1)
      + if exportMode && n - 1 != active then []
        else [DrawnSlot(n - 1, if exportMode then originY else SlotY(n - 1, originY, slotHeight),
                        n - 1 == active, Binned(slots[n - 1], typeOf))]
  }

  /** The handle of slot `slot` (a click makes it active) and, on the active
      slot when there is more than one, the delete button at its bottom. */
  function HandleRegions(slot: nat, slotCount: nat, active: int, originY: real, slotHeight: real): seq<Region>
  {
    var y := SlotY(slot, originY, slotHeight);
    var handle := Rect(0.0, y + 1.0, 14.0, slotHeight - 2.0);
    [Region(handle, if slot == active then None else Some(["set active"]), Some(SetActiveSlot(slot)), true, None)]
    + if slotCount > 1 && slot == active then
        [Region(Rect(handle.x, handle.y + handle.h - handle.w, handle.w, handle.w), Some(["delete"]),
                Some(RemoveSlot(slot)), true, None)]
      else []
  }

  /** The handle regions of the first `n` slots. */
  function SlotHandles(slotCount: nat, active: int, originY: real, slotHeight: real, n: nat): seq<Region>
  {
    if n == 0 then []
    else SlotHandles(slotCount, active, originY, slotHeight, n - 1) + HandleRegions(n - 1, slotCount, active, originY, slotHeight)
  }

  /** Height of the grey countdown cover: every slot, plus the add-slot row
      when another slot may still be added. */
  function CountdownHeight(slotCount: nat, dims: SlotDims): real
  {
    SlotsHeight(slotCount, dims.slotHeight) + if slotCount < dims.maxSlots then dims.addSlotButtonHeight else 0.0
  }

  /** The tick-like marks among `es`: the cast of a tick bin. */
  function Ticks(es: seq<TimelineElem>): seq<TickMark>
  {
    if es == [] then []
    else
      var e := es[|es| - 1];
      Ticks(es[..|es| - 1]) + if e.SkillItem? || e.PotencyItem? then [] else [e.tick]
  }

  /** The potency marks among `es`: the cast of a potency bin. */
  function Marks(es: seq<TimelineElem>): seq<PotencyMarks.PotencyMark>
  {
    if es == [] then []
    else
      var e := es[|es| - 1];
      Marks(es[..|es| - 1]) + if e.PotencyItem? then [e.mark] else []
  }

  /** The skills among `es`: the cast of the skill bin. */
  function SkillsIn(es: seq<TimelineElem>): seq<Skills.SkillElem>
  {
    if es == [] then []
    else
      var e := es[|es| - 1];
      SkillsIn(es[..|es| - 1]) + if e.SkillItem? then [e.skill] else []
  }

  /** The hover line of a tick-like mark: its time in brackets, then its text. */
  function TickTip(m: TickMark, tickTime: real -> string): string
  {
    "[" + tickTime(m.displayTime) + "] " + m.text
  }

  /** The hit area of a mark of kind `k` drawn at `x`: a tick is a 4-pixel
      strip over the slot height, a lucid mark the 6-pixel square around its
      triangle and a warning the 12-pixel square around its triangle. */
  function TickRect(k: ElemType, x: real, y: real, slotHeight: real): Rect
  {
    if k == WarningMark then Rect(x - 6.0, y, 12.0, 12.0)
    else if k == LucidMark then Rect(x - 3.0, y, 6.0, 6.0)
    else Rect(x - 2.0, y, 4.0, slotHeight)
  }

  function TickRegion(k: ElemType, m: TickMark, originX: real, y: real, pixelsPerSecond: real, slotHeight: real,
                      tickTime: real -> string): Region
  {
    TipRegion(TickRect(k, originX + m.displayTime * pixelsPerSecond, y, slotHeight), [TickTip(m, tickTime)])
  }

  function TickRegions(k: ElemType, ticks: seq<TickMark>, originX: real, y: real, pixelsPerSecond: real,
                       slotHeight: real, tickTime: real -> string): seq<Region>
  {
    seq(|ticks|, i requires 0 <= i < |ticks| => TickRegion(k, ticks[i], originX, y, pixelsPerSecond, slotHeight, tickTime))
  }

  function PotencyRegions(marks: seq<PotencyMarks.PotencyMark>, S: SlotStyle, originX: real, y: real,
                          pixelsPerSecond: real): seq<Region>
  {
    seq(|marks|, i requires 0 <= i < |marks| =>
      PotencyMarks.MarkRegion(marks[i], originX, y, pixelsPerSecond, S.bossUntargetable, S.potencyLine))
  }

  /** Where and how a slot's skill row is drawn. */
  function SkillLayoutOf(S: SlotStyle, originX: real, y: real, pixelsPerSecond: real, slotHeight: real): Skills.SkillLayout
  {
    Skills.SkillLayout(originX, y, pixelsPerSecond, S.skillButtonHeight, S.slotPaddingTop, S.slotPaddingBottom,
                       slotHeight, S.coverInfo, S.opts.drawBuffIndicators)
  }

  /** The regions of the tick-like layer of kind `k` of a drawn slot: its
      bin (empty when absent), one region per mark. */
  function TickLayer(k: ElemType, d: DrawnSlot<TimelineElem>, S: SlotStyle, originX: real, pixelsPerSecond: real,
                     slotHeight: real): seq<Region>
  {
    TickRegions(k, Ticks(ElemsOf(d.bins, k)), originX, d.y, pixelsPerSecond, slotHeight, S.tickTime)
  }

  /** The regions of the potency layer of kind `k` of a drawn slot. */
  function PotencyLayer(k: ElemType, d: DrawnSlot<TimelineElem>, S: SlotStyle, originX: real,
                        pixelsPerSecond: real): seq<Region>
  {
    PotencyRegions(Marks(ElemsOf(d.bins, k)), S, originX, d.y, pixelsPerSecond)
  }

  /** The regions of the skill row of a drawn slot, interactive only on the
      active slot. */
  function SkillLayer(d: DrawnSlot<TimelineElem>, S: SlotStyle, originX: real, pixelsPerSecond: real,
                      slotHeight: real): seq<Region>
  {
    var L := SkillLayoutOf(S, originX, d.y, pixelsPerSecond, slotHeight);
    Skills.SkillRegions(Skills.LayersOf(SkillsIn(ElemsOf(d.bins, Skill)), L), L, d.isActive, S.skillTip, S.hasImage)
  }

  /** The regions of the layers drawn below the skill row of a slot, layer
      after layer: MP ticks, healing, damage and aggro marks, lucid marks,
      each behind its switch, then meditate ticks, auto ticks and warnings. */
  function MarkLayers(d: DrawnSlot<TimelineElem>, S: SlotStyle, originX: real, pixelsPerSecond: real,
                      slotHeight: real): seq<Region>
  {
    var o := S.opts;
    var mp := if o.drawMPTickMarks then [] + TickLayer(MPTickMark, d, S, originX, pixelsPerSecond, slotHeight) else [];
    var healing := if o.drawHealingMarks then mp + PotencyLayer(HealingMark, d, S, originX, pixelsPerSecond) else mp;
    var damage := if o.drawDamageMarks
                  then healing + PotencyLayer(DamageMark, d, S, originX, pixelsPerSecond)
                       + PotencyLayer(AggroMark, d, S, originX, pixelsPerSecond)
                  else healing;
    var lucid := if o.drawMPTickMarks then damage + TickLayer(LucidMark, d, S, originX, pixelsPerSecond, slotHeight) else damage;
    lucid + TickLayer(MeditateTickMark, d, S, originX, pixelsPerSecond, slotHeight)
    + TickLayer(AutoTickMark, d, S, originX, pixelsPerSecond, slotHeight)
    + TickLayer(WarningMark, d, S, originX, pixelsPerSecond, slotHeight)
  }

  /** The regions one drawn slot registers: its mark layers, then the skill
      row on top. */
  function SlotRegions(d: DrawnSlot<TimelineElem>, S: SlotStyle, originX: real, pixelsPerSecond: real,
                       slotHeight: real): seq<Region>
  {
    MarkLayers(d, S, originX, pixelsPerSecond, slotHeight) + SkillLayer(d, S, originX, pixelsPerSecond, slotHeight)
  }

  /** The regions of the drawn slots, slot after slot. */
  function ContentRegions(drawn: seq<DrawnSlot<TimelineElem>>, S: SlotStyle, originX: real, pixelsPerSecond: real,
                          slotHeight: real): seq<Region>
  {
    if drawn == [] then []
    else ContentRegions(drawn[..|drawn| - 1], S, originX, pixelsPerSecond, slotHeight)
         + SlotRegions(drawn[|drawn| - 1], S, originX, pixelsPerSecond, slotHeight)
  }

  /** The slot the `n`-th iteration adds, if any. */
  function DrawnSlotAt<E>(slots: seq<seq<E>>, typeOf: E -> ElemType, active: int, exportMode: bool,
                          originY: real, slotHeight: real, slot: nat): seq<DrawnSlot<E>>
    requires slot < |slots|
  {
    if exportMode && slot != active then []
    else [DrawnSlot(slot, if exportMode then originY else SlotY(slot, originY, slotHeight),
                    slot == active, Binned(slots[slot], typeOf))]
  }

  lemma DrawnSlotsStep<E>(slots: seq<seq<E>>, typeOf: E -> ElemType, active: int, exportMode: bool,
                          originY: real, slotHeight: real, slot: nat)
    requires slot < |slots|
    ensures DrawnSlots(slots, typeOf, active, exportMode, originY, slotHeight, slot + 1)
      == DrawnSlots(slots, typeOf, active, exportMode, originY, slotHeight, slot)
         + DrawnSlotAt(slots, typeOf, active, exportMode, originY, slotHeight, slot)
  {
  }

  /** `drawMPTickMarks`, `drawLucidMarks`, `drawMeditateTickMarks`,
      `drawAutoTickMarks` and `drawWarningMarks`: one hover region per mark
      of kind `k`, in order. */
  method DrawTickMarks(k: ElemType, ticks: seq<TickMark>, originX: real, y: real, pixelsPerSecond: real,
                       slotHeight: real, tickTime: real -> string) returns (regions: seq<Region>)
    ensures regions == TickRegions(k, ticks, originX, y, pixelsPerSecond, slotHeight, tickTime)
  {
    regions := [];
    var i := 0;
    while i < |ticks|
      invariant 0 <= i <= |ticks|
      invariant |regions| == i
      invariant forall j :: 0 <= j < i ==>
                  regions[j] == TickRegion(k, ticks[j], originX, y, pixelsPerSecond, slotHeight, tickTime)
    {
      var x := originX + ticks[i].displayTime * pixelsPerSecond;
      var area := Rect(x - 2.0, y, 4.0, slotHeight);
      if k == WarningMark {
        var sideLength := 12.0;
        var bottomY := y + sideLength;
        area := Rect(x - sideLength / 2.0, bottomY - sideLength, sideLength, sideLength);
      } else if k == LucidMark {
        area := Rect(x - 3.0, y, 6.0, 6.0);
      }
      regions := regions + [TipRegion(area, ["[" + tickTime(ticks[i].displayTime) + "] " + ticks[i].text])];
      i := i + 1;
    }
  }

  /** A potency layer: look its kind up in the bins (`?? []`) and draw its
      marks. */
  method DrawPotencyLayer(k: ElemType, d: DrawnSlot<TimelineElem>, S: SlotStyle, originX: real,
                          pixelsPerSecond: real) returns (rs: seq<Region>)
    ensures rs == PotencyLayer(k, d, S, originX, pixelsPerSecond)
  {
    rs := PotencyMarks.DrawPotencyMarks(Marks(ElemsOf(d.bins, k)), originX, d.y, pixelsPerSecond,
                                        S.bossUntargetable, S.potencyLine);
  }

  /** A tick-like layer: look its kind up in the bins and draw its marks. */
  method DrawTickLayer(k: ElemType, d: DrawnSlot<TimelineElem>, S: SlotStyle, originX: real,
                       pixelsPerSecond: real, slotHeight: real) returns (rs: seq<Region>)
    ensures rs == TickLayer(k, d, S, originX, pixelsPerSecond, slotHeight)
  {
    rs := DrawTickMarks(k, Ticks(ElemsOf(d.bins, k)), originX, d.y, pixelsPerSecond, slotHeight, S.tickTime);
  }

  /** The skill row: look the skills up in the bins and draw them,
      interactive on the active slot only. */
  method DrawSkillLayer(d: DrawnSlot<TimelineElem>, S: SlotStyle, originX: real, pixelsPerSecond: real,
                        slotHeight: real) returns (rs: seq<Region>)
    ensures rs == SkillLayer(d, S, originX, pixelsPerSecond, slotHeight)
  {
    var L := SkillLayoutOf(S, originX, d.y, pixelsPerSecond, slotHeight);
    var layers;
    layers, rs := Skills.DrawSkills(SkillsIn(ElemsOf(d.bins, Skill)), L, d.isActive, S.skillTip, S.hasImage);
  }

  /** The body of the first loop of `drawTimelines` for one slot: its
      layers in the order the source draws them. */
  method DrawSlot(d: DrawnSlot<TimelineElem>, S: SlotStyle, originX: real, pixelsPerSecond: real, slotHeight: real)
    returns (regions: seq<Region>)
    ensures regions == SlotRegions(d, S, originX, pixelsPerSecond, slotHeight)
  {
    var rs;
    regions := [];
    if S.opts.drawMPTickMarks {
      rs := DrawTickLayer(MPTickMark, d, S, originX, pixelsPerSecond, slotHeight);
      regions := regions + rs;
    }
    if S.opts.drawHealingMarks {
      rs := DrawPotencyLayer(HealingMark, d, S, originX, pixelsPerSecond);
      regions := regions + rs;
    }
    if S.opts.drawDamageMarks {
      rs := DrawPotencyLayer(DamageMark, d, S, originX, pixelsPerSecond);
      regions := regions + rs;
      rs := DrawPotencyLayer(AggroMark, d, S, originX, pixelsPerSecond);
      regions := regions + rs;
    }
    if S.opts.drawMPTickMarks {
      rs := DrawTickLayer(LucidMark, d, S, originX, pixelsPerSecond, slotHeight);
      regions := regions + rs;
    }
    rs := DrawTickLayer(MeditateTickMark, d, S, originX, pixelsPerSecond, slotHeight);
    regions := regions + rs;
    rs := DrawTickLayer(AutoTickMark, d, S, originX, pixelsPerSecond, slotHeight);
    regions := regions + rs;
    rs := DrawTickLayer(WarningMark, d, S, originX, pixelsPerSecond, slotHeight);
    regions := regions + rs;
    rs := DrawSkillLayer(d, S, originX, pixelsPerSecond, slotHeight);
    regions := regions + rs;
  }

  /** One iteration of the first loop of `drawTimelines`: a slot that is
      not drawn (export mode, not the active slot) adds nothing; otherwise
      bin its elements, place it and draw its layers. */
  method DrawSlotStep(slots: seq<seq<TimelineElem>>, slot: nat, active: int, exportMode: bool, S: SlotStyle,
                      originX: real, originY: real, pixelsPerSecond: real, slotHeight: real,
                      ghost drawn: seq<DrawnSlot<TimelineElem>>, ghost regions: seq<Region>)
    returns (ds: seq<DrawnSlot<TimelineElem>>, rs: seq<Region>)
    requires slot < |slots|
    requires regions == ContentRegions(drawn, S, originX, pixelsPerSecond, slotHeight)
    ensures ds == DrawnSlotAt(slots, TypeOf, active, exportMode, originY, slotHeight, slot)
    ensures regions + rs == ContentRegions(drawn + ds, S, originX, pixelsPerSecond, slotHeight)
  {
    var isActiveSlot := slot == active;
    if exportMode && !isActiveSlot {
      assert drawn + [] == drawn;
      return [], [];
    }
    var bins := BinBy(slots[slot], TypeOf);
    var currentY := SlotY(slot, originY, slotHeight);
    if exportMode {
      currentY := originY;
    }
    var d := DrawnSlot(slot, currentY, isActiveSlot, bins);
    rs := DrawSlot(d, S, originX, pixelsPerSecond, slotHeight);
    ds := [d];
    ContentRegionsSnoc(drawn, d, S, originX, pixelsPerSecond, slotHeight);
  }

  /** The first loop of `drawTimelines`: the drawn slots in slot order and
      their regions, slot after slot. */
  method DrawSlots(slots: seq<seq<TimelineElem>>, active: int, exportMode: bool, S: SlotStyle,
                   originX: real, originY: real, pixelsPerSecond: real, slotHeight: real)
    returns (drawn: seq<DrawnSlot<TimelineElem>>, regions: seq<Region>)
    ensures drawn == DrawnSlots(slots, TypeOf, active, exportMode, originY, slotHeight, |slots|)
    ensures regions == ContentRegions(drawn, S, originX, pixelsPerSecond, slotHeight)
  {
    drawn := [];
    regions := [];
    var slot := 0;
    while slot < |slots|
      invariant 0 <= slot <= |slots|
      invariant drawn == DrawnSlots(slots, TypeOf, active, exportMode, originY, slotHeight, slot)
      invariant regions == ContentRegions(drawn, S, originX, pixelsPerSecond, slotHeight)
    {
      var ds, rs := DrawSlotStep(slots, slot, active, exportMode, S, originX, originY, pixelsPerSecond, slotHeight,
                                 drawn, regions);
      DrawnSlotsStep(slots, TypeOf, active, exportMode, originY, slotHeight, slot);
      drawn := drawn + ds;
      regions := regions + rs;
      slot := slot + 1;
    }
  }

  /** One slot's handle and, on the active slot, its delete button. */
  method SlotHandle(slot: nat, slotCount: nat, active: int, originY: real, slotHeight: real)
    returns (rs: seq<Region>)
    ensures rs == HandleRegions(slot, slotCount, active, originY, slotHeight)
  {
    var currentY := originY + slot as real * slotHeight;
    var handle := Rect(0.0, currentY + 1.0, 14.0, slotHeight - 2.0);
    rs := [Region(handle, if slot == active then None else Some(["set active"]), Some(SetActiveSlot(slot)), true, None)];
    if slotCount > 1 && slot == active {
      var deleteBtn := Rect(handle.x, handle.y + handle.h - handle.w, handle.w, handle.w);
      rs := rs + [Region(deleteBtn, Some(["delete"]), Some(RemoveSlot(slot)), true, None)];
    }
  }

  /** The second loop of `drawTimelines`: the slot handles, in slot order. */
  method RegisterHandles(slotCount: nat, active: int, originY: real, slotHeight: real)
    returns (regions: seq<Region>)
    ensures regions == SlotHandles(slotCount, active, originY, slotHeight, slotCount)
  {
    regions := [];
    var slot := 0;
    while slot < slotCount
      invariant 0 <= slot <= slotCount
      invariant regions == SlotHandles(slotCount, active, originY, slotHeight, slot)
    {
      var rs := SlotHandle(slot, slotCount, active, originY, slotHeight);
      regions := regions + rs;
      slot := slot + 1;
    }
  }

  /** The countdown grey rectangle of `drawTimelines`: its height. */
  method CountdownCover(slotCount: nat, dims: SlotDims) returns (countdownHeight: real)
    ensures countdownHeight == CountdownHeight(slotCount, dims)
  {
    countdownHeight := SlotsHeight(slotCount, dims.slotHeight);
    if slotCount < dims.maxSlots {
      countdownHeight := countdownHeight + dims.addSlotButtonHeight;
    }
  }

  /** Where time 0 is drawn: `originX` is where the countdown starts. */
  function DisplayOriginX(originX: real, countdown: real, pixelsPerSecond: real): real
  {
    originX + countdown * pixelsPerSecond
  }

  /** `drawTimelines`: every drawn slot's layers, then (outside export
      mode) every slot's handle. */
  method DrawTimelines(slots: seq<seq<TimelineElem>>, active: int, exportMode: bool, S: SlotStyle,
                       originX: real, originY: real, countdown: real, pixelsPerSecond: real, dims: SlotDims)
    returns (drawn: seq<DrawnSlot<TimelineElem>>, countdownHeight: real, regions: seq<Region>, height: real)
    ensures drawn == DrawnSlots(slots, TypeOf, active, exportMode, originY, dims.slotHeight, |slots|)
    ensures countdownHeight == CountdownHeight(|slots|, dims)
    ensures exportMode ==>
      regions == ContentRegions(drawn, S, DisplayOriginX(originX, countdown, pixelsPerSecond), pixelsPerSecond, dims.slotHeight)
      && height == dims.slotHeight
    ensures !exportMode ==>
      regions == ContentRegions(drawn, S, DisplayOriginX(originX, countdown, pixelsPerSecond), pixelsPerSecond, dims.slotHeight)
                 + SlotHandles(|slots|, active, originY, dims.slotHeight, |slots|)
      && height == SlotsHeight(|slots|, dims.slotHeight)
  {
    var displayOriginX := DisplayOriginX(originX, countdown, pixelsPerSecond);
    var content;
    drawn, content := DrawSlots(slots, active, exportMode, S, displayOriginX, originY, pixelsPerSecond, dims.slotHeight);
    countdownHeight := CountdownCover(|slots|, dims);
    if exportMode {
      return drawn, countdownHeight, content, dims.slotHeight;
    }
    var handles := RegisterHandles(|slots|, active, originY, dims.slotHeight);
    regions := content + handles;
    height := SlotsHeight(|slots|, dims.slotHeight);
  }

  /** `drawAddSlotButton`: the add and clone buttons, present only while
      fewer than the maximum number of slots exist. */
  method DrawAddSlotButton(slotCount: nat, originY: real, dims: SlotDims) returns (regions: seq<Region>, height: real)
    ensures slotCount < dims.maxSlots ==>
      height == dims.addSlotButtonHeight
      && regions == [Region(Rect(4.0, originY + 2.0, 192.0, dims.addSlotButtonHeight - 4.0), None, Some(AddSlot), true, None),
                     Region(Rect(200.0, originY + 2.0, 192.0, dims.addSlotButtonHeight - 4.0), None, Some(CloneActiveSlot), true, None)]
    ensures slotCount >= dims.maxSlots ==> height == 0.0 && regions == []
  {
    if slotCount < dims.maxSlots {
      var buttonWidth := 192.0;
      var leftMargin := 4.0;
      var handle := Rect(leftMargin, originY + 2.0, buttonWidth, dims.addSlotButtonHeight - 4.0);
      var cloneHandle := Rect(2.0 * leftMargin + buttonWidth, originY + 2.0, buttonWidth, dims.addSlotButtonHeight - 4.0);
      regions := [Region(handle, None, Some(AddSlot), true, None), Region(cloneHandle, None, Some(CloneActiveSlot), true, None)];
      return regions, dims.addSlotButtonHeight;
    }
    return [], 0.0;
  }

  /** In export mode exactly the active slot is drawn, at the top, and it
      is interactive; with an out-of-range active index nothing is drawn. */
  lemma {:induction false} ExportDrawsOnlyActive<E>(slots: seq<seq<E>>, typeOf: E -> ElemType, active: int,
                                                    originY: real, slotHeight: real, n: nat)
    requires n <= |slots|
    ensures DrawnSlots(slots, typeOf, active, true, originY, slotHeight, n) ==
      if 0 <= active < n then [DrawnSlot(active, originY, true, Binned(slots[active], typeOf))] else []
  {
    if n > 0 {
      ExportDrawsOnlyActive(slots, typeOf, active, originY, slotHeight, n - 1);
      DrawnSlotsStep(slots, typeOf, active, true, originY, slotHeight, n - 1);
      var prev := DrawnSlots(slots, typeOf, active, true, originY, slotHeight, n - 1);
      if n - 1 == active {
        assert prev == [];
        assert [] + DrawnSlotAt(slots, typeOf, active, true, originY, slotHeight, n - 1)
          == [DrawnSlot(active, originY, true, Binned(slots[active], typeOf))];
      } else {
        assert prev + [] == prev;
      }
    }
  }

  /** Outside export mode every slot is drawn, in order, one slot height
      apart, and only the active one is interactive. */
  lemma {:induction false} NormalDrawsEverySlot<E>(slots: seq<seq<E>>, typeOf: E -> ElemType, active: int,
                                                   originY: real, slotHeight: real, n: nat)
    requires n <= |slots|
    ensures var d := DrawnSlots(slots, typeOf, active, false, originY, slotHeight, n);
      && |d| == n
      && forall i :: 0 <= i < n ==>
           d[i] == DrawnSlot(i, originY + i as real * slotHeight, i == active, Binned(slots[i], typeOf))
  {
    if n > 0 {
      NormalDrawsEverySlot(slots, typeOf, active, originY, slotHeight, n - 1);
    }
  }

  /** Only the active slot carries a delete button, and only when there is
      more than one slot; every other handle region makes its slot active. */
  lemma {:induction false} DeleteOnlyOnActive(slotCount: nat, active: int, originY: real, slotHeight: real, n: nat)
    ensures forall r :: r in SlotHandles(slotCount, active, originY, slotHeight, n) ==>
      match r.onClick
      case Some(RemoveSlot(s)) => s == active && slotCount > 1 && s < n
      case Some(SetActiveSlot(s)) => s < n && (r.hoverTip == None <==> s == active)
      case _ => false
  {
    if n > 0 {
      DeleteOnlyOnActive(slotCount, active, originY, slotHeight, n - 1);
    }
  }

  /** The delete button is the bottom square of the active handle whenever
      the slot is at least 16 pixels high. */
  lemma DeleteButtonInsideHandle(slot: nat, slotCount: nat, originY: real, slotHeight: real)
    requires slotCount > 1 && slotHeight >= 16.0
    ensures var rs := HandleRegions(slot, slotCount, slot, originY, slotHeight);
      && |rs| == 2
      && rs[0].rect.x == rs[1].rect.x && rs[0].rect.w == rs[1].rect.w
      && rs[0].rect.y <= rs[1].rect.y
      && rs[1].rect.y + rs[1].rect.h == rs[0].rect.y + rs[0].rect.h
  {
  }

  lemma ContentRegionsSnoc(drawn: seq<DrawnSlot<TimelineElem>>, d: DrawnSlot<TimelineElem>, S: SlotStyle,
                           originX: real, pixelsPerSecond: real, slotHeight: real)
    ensures ContentRegions(drawn + [d], S, originX, pixelsPerSecond, slotHeight)
      == ContentRegions(drawn, S, originX, pixelsPerSecond, slotHeight) + SlotRegions(d, S, originX, pixelsPerSecond, slotHeight)
  {
    assert (drawn + [d])[..|drawn|] == drawn;
  }

  /** In export mode the regions of the slots are those of the active slot
      alone, drawn at the top and interactive; nothing when the active index
      names no slot. */
  lemma ExportRegistersActiveSlot(slots: seq<seq<TimelineElem>>, active: int, S: SlotStyle, originX: real,
                                  originY: real, pixelsPerSecond: real, slotHeight: real)
    ensures ContentRegions(DrawnSlots(slots, TypeOf, active, true, originY, slotHeight, |slots|),
                           S, originX, pixelsPerSecond, slotHeight)
      == if 0 <= active < |slots|
         then SlotRegions(DrawnSlot(active, originY, true, Binned(slots[active], TypeOf)), S, originX, pixelsPerSecond, slotHeight)
         else []
  {
    ExportDrawsOnlyActive(slots, TypeOf, active, originY, slotHeight, |slots|);
    if 0 <= active < |slots| {
      var d := DrawnSlot(active, originY, true, Binned(slots[active], TypeOf));
      assert [d][..0] == [];
      assert ContentRegions([d], S, originX, pixelsPerSecond, slotHeight)
        == [] + SlotRegions(d, S, originX, pixelsPerSecond, slotHeight);
    }
  }

  /** A skill icon under the mouse wins the slot's hover over every mark and
      bar: the skill row is the slot's last layer and its icons are the
      row's last regions. */
  lemma IconWinsInSlot(d: DrawnSlot<TimelineElem>, S: SlotStyle, originX: real, pixelsPerSecond: real,
                       slotHeight: real, mx: real, my: real)
    ensures var L := SkillLayoutOf(S, originX, d.y, pixelsPerSecond, slotHeight);
            var layers := Skills.LayersOf(SkillsIn(ElemsOf(d.bins, Skill)), L);
            var icons := Skills.IconRegions(layers.icons, L, d.isActive, S.skillTip, S.hasImage);
            var k := LastHit(icons, mx, my);
            var rs := SlotRegions(d, S, originX, pixelsPerSecond, slotHeight);
      k >= 0 ==>
        LastHit(rs, mx, my) >= 0
        && rs[LastHit(rs, mx, my)] == Skills.IconRegion(layers.icons[k], L, d.isActive, S.skillTip, S.hasImage)
  {
    var L := SkillLayoutOf(S, originX, d.y, pixelsPerSecond, slotHeight);
    var layers := Skills.LayersOf(SkillsIn(ElemsOf(d.bins, Skill)), L);
    Skills.IconsWin(layers, L, d.isActive, S.skillTip, S.hasImage, mx, my);
    LastHitAppend(MarkLayers(d, S, originX, pixelsPerSecond, slotHeight), SkillLayer(d, S, originX, pixelsPerSecond, slotHeight),
                  mx, my);
  }

  /** Each tick-like mark is hovered at the top of its line, shows its
      bracketed time and text as its only line, and takes no click. */
  lemma TickMarkHover(k: ElemType, ticks: seq<TickMark>, originX: real, y: real, pixelsPerSecond: real,
                      slotHeight: real, tickTime: real -> string, i: int)
    requires 0 <= i < |ticks| && slotHeight > 0.0
    ensures var r := TickRegions(k, ticks, originX, y, pixelsPerSecond, slotHeight, tickTime)[i];
      && Contains(r.rect, originX + ticks[i].displayTime * pixelsPerSecond, y)
      && r.hoverTip == Some(["[" + tickTime(ticks[i].displayTime) + "] " + ticks[i].text])
      && r.onClick == None && !r.pointerMouse
  {
  }
}
