/** The skill row of a timeline slot (`drawSkills`): per skill a cast or
    lock bar, a recast bar for GCDs and limit breaks, a target-count label,
    buff cover strips stacked under the icon, red shading for invalid
    skills, and the icon itself, which is registered last and so wins the
    hover over every bar. */
module Skills {
  import opened Wrappers
  import opened Sequences
  import opened HitTest

  type BuffKey = string

  /** The fields of a `SkillElem` and of its action node that the row reads. */
  datatype SkillElem = SkillElem(
    displayTime: real, isGCD: bool, isSpellCast: bool, isLimitBreak: bool,
    lockDuration: real, recastDuration: real, relativeSnapshotTime: real,
    targetCount: int, invalid: bool, buffs: set<BuffKey>, hasPartyBuff: bool, partyBuffs: seq<BuffKey>,
    actionIndex: int, hasIcon: bool)

  /** One entry of the cover table (its colour left out), in table order. */
  datatype CoverInfo = CoverInfo(buff: BuffKey, showImage: bool)

  /** Where the row is drawn and the dimensions it uses. */
  datatype SkillLayout = SkillLayout(
    originX: real, originY: real, pixelsPerSecond: real,
    skillButtonHeight: real, slotPaddingTop: real, slotPaddingBottom: real, slotHeight: real,
    coverInfo: seq<CoverInfo>, drawBuffIndicators: bool)

  const BARS_OFFSET: real := 2.0
  const ICON_SIZE: real := 28.0
  const COVER_HEIGHT: real := 4.0

  datatype TargetLabel = TargetLabel(count: int, x: real, y: real)
  datatype Icon = Icon(skill: SkillElem, x: real, y: real)

  /** The arrays `drawSkills` fills before drawing them layer by layer;
      `covers` has one array per entry of the cover table. */
  datatype SkillLayers = SkillLayers(
    targetCounts: seq<TargetLabel>, greyLockBars: seq<Rect>, purpleLockBars: seq<Rect>,
    gcdBars: seq<Rect>, snapshots: seq<real>, covers: seq<seq<Rect>>, buffCovers: seq<Rect>,
    invalidSections: seq<Rect>, icons: seq<Icon>)

  function SkillX(e: SkillElem, L: SkillLayout): real
  {
    L.originX + e.displayTime * L.pixelsPerSecond
  }

  /** GCDs sit half a button lower than off-GCD skills. */
  function SkillY(e: SkillElem, L: SkillLayout): real
  {
    var skillsTopY := L.originY + L.skillButtonHeight / 2.0;
    if e.isGCD then skillsTopY + L.skillButtonHeight / 2.0 else skillsTopY
  }

  /** Number of cover-table entries before `j` whose buff the skill holds. */
  function HeldBefore(coverInfo: seq<CoverInfo>, buffs: set<BuffKey>, j: nat): nat
    requires j <= |coverInfo|
  {
    if j == 0 then 0
    else HeldBefore(coverInfo, buffs, j - 1) + if coverInfo[j - 1].buff in buffs then 1 else 0
  }

  /** The `k`-th cover strip under an icon at (x, y). */
  function CoverRect(x: real, y: real, k: nat): Rect
  {
    Rect(x, y + ICON_SIZE + k as real * COVER_HEIGHT, ICON_SIZE, COVER_HEIGHT)
  }

  /** The cover arrays after the first `j` table entries were visited for one skill. */
  function CoversAfter(covers: seq<seq<Rect>>, coverInfo: seq<CoverInfo>, buffs: set<BuffKey>, x: real, y: real,
                       draw: bool, j: nat): seq<seq<Rect>>
    requires j <= |coverInfo|
  {
    seq(|covers|, i requires 0 <= i < |covers| =>
      if i < j && coverInfo[i].buff in buffs && draw then covers[i] + [CoverRect(x, y, HeldBefore(coverInfo, buffs, i))]
      else covers[i])
  }

  lemma CoversStep(covers: seq<seq<Rect>>, coverInfo: seq<CoverInfo>, buffs: set<BuffKey>, x: real, y: real,
                   draw: bool, j: nat)
    requires j < |coverInfo| == |covers|
    ensures CoversAfter(covers, coverInfo, buffs, x, y, draw, j + 1)
            == var c := CoversAfter(covers, coverInfo, buffs, x, y, draw, j);
               if coverInfo[j].buff in buffs && draw then c[j := c[j] + [CoverRect(x, y, HeldBefore(coverInfo, buffs, j))]]
               else c
  {
  }

  /** The red shading of an invalid skill: over the lock, and for a GCD
      over whichever of recast and lock is longer. */
  function InvalidRect(e: SkillElem, L: SkillLayout): Rect
  {
    var d := if e.isGCD then (if e.recastDuration >= e.lockDuration then e.recastDuration else e.lockDuration)
             else e.lockDuration;
    Rect(SkillX(e, L), L.originY + L.slotPaddingTop, d * L.pixelsPerSecond,
         L.slotHeight - L.slotPaddingBottom - L.slotPaddingTop)
  }

  /** The lock bar: purple and half height for a spell cast, grey and
      full height otherwise. */
  function LockBar(e: SkillElem, L: SkillLayout): Rect
  {
    Rect(SkillX(e, L) + BARS_OFFSET, SkillY(e, L), e.lockDuration * L.pixelsPerSecond - BARS_OFFSET,
         if e.isSpellCast then L.skillButtonHeight / 2.0 else L.skillButtonHeight)
  }

  /** The recast bar, in the lower half of the button row. */
  function RecastBar(e: SkillElem, L: SkillLayout): Rect
  {
    Rect(SkillX(e, L) + BARS_OFFSET, SkillY(e, L) + L.skillButtonHeight / 2.0,
         e.recastDuration * L.pixelsPerSecond - BARS_OFFSET, L.skillButtonHeight / 2.0)
  }

  function Label(e: SkillElem, L: SkillLayout): TargetLabel
  {
    TargetLabel(e.targetCount, SkillX(e, L) + L.skillButtonHeight / 2.0, SkillY(e, L) - 5.0)
  }

  function SnapshotX(e: SkillElem, L: SkillLayout): real
  {
    SkillX(e, L) + e.relativeSnapshotTime * L.pixelsPerSecond
  }

  /** What one skill adds to the label, bar, snapshot and shading arrays. */
  function AddBars(layers: SkillLayers, e: SkillElem, L: SkillLayout): SkillLayers
  {
    layers.(
      targetCounts := layers.targetCounts + (if e.targetCount > 1 then [Label(e, L)] else []),
      greyLockBars := layers.greyLockBars
        + (if e.isSpellCast then [] else [LockBar(e, L)])
        + (if e.isLimitBreak then [RecastBar(e, L)] else []),
      purpleLockBars := layers.purpleLockBars + (if e.isSpellCast then [LockBar(e, L)] else []),
      gcdBars := layers.gcdBars + (if e.isGCD then [RecastBar(e, L)] else []),
      snapshots := layers.snapshots + (if e.isSpellCast then [SnapshotX(e, L)] else []),
      invalidSections := layers.invalidSections + (if e.invalid then [InvalidRect(e, L)] else []))
  }

  /** What one skill adds to the cover arrays and the icon array. */
  function AddCovers(layers: SkillLayers, e: SkillElem, L: SkillLayout): SkillLayers
  {
    var x := SkillX(e, L);
    var y := SkillY(e, L);
    layers.(
      covers := CoversAfter(layers.covers, L.coverInfo, e.buffs, x, y, L.drawBuffIndicators, |L.coverInfo|),
      buffCovers := layers.buffCovers
        + (if e.hasPartyBuff && L.drawBuffIndicators
           then [CoverRect(x, y, HeldBefore(L.coverInfo, e.buffs, |L.coverInfo|))] else []),
      icons := layers.icons + (if e.hasIcon then [Icon(e, x, y)] else []))
  }

  /** What one skill adds to each array. */
  function AddSkill(layers: SkillLayers, e: SkillElem, L: SkillLayout): SkillLayers
  {
    AddCovers(AddBars(layers, e, L), e, L)
  }

  function NoLayers(coverCount: nat): SkillLayers
  {
    SkillLayers([], [], [], [], [], seq(coverCount, _ => []), [], [], [])
  }

  /** The arrays after visiting `elems` in order. */
  function LayersOf(elems: seq<SkillElem>, L: SkillLayout): SkillLayers
  {
    if elems == [] then NoLayers(|L.coverInfo|)
    else AddSkill(LayersOf(elems[..|elems| - 1], L), elems[|elems| - 1], L)
  }

  /** Bars and covers register a click on the background, only in the active slot. */
  function BarRegions(rects: seq<Rect>, interactive: bool): seq<Region>
  {
    if interactive then seq(|rects|, i requires 0 <= i < |rects| => Region(rects[i], None, Some(ClickBackground), false, None))
    else []
  }

  function CoverRegions(covers: seq<seq<Rect>>, interactive: bool): seq<Region>
  {
    if covers == [] then []
    else CoverRegions(covers[..|covers| - 1], interactive) + BarRegions(covers[|covers| - 1], interactive)
  }

  /** Icons of the cover table shown for the buffs a skill holds, in table order. */
  function CoverImages(coverInfo: seq<CoverInfo>, buffs: set<BuffKey>): seq<Option<Image>>
  {
    if coverInfo == [] then []
    else CoverImages(coverInfo[..|coverInfo| - 1], buffs)
         + var c := coverInfo[|coverInfo| - 1]; if c.showImage && c.buff in buffs then [Some(c.buff)] else []
  }

  /** Icons of the party buffs that have one. */
  function PartyImages(partyBuffs: seq<BuffKey>, hasImage: BuffKey -> bool): seq<Option<Image>>
  {
    if partyBuffs == [] then []
    else PartyImages(partyBuffs[..|partyBuffs| - 1], hasImage)
         + var b := partyBuffs[|partyBuffs| - 1]; if hasImage(b) then [Some(b)] else []
  }

  /** The region of a skill icon: its tip (`tipLines` stands for the
      localised description, potency, duration and invalid reasons), a
      click that selects the action when the slot is active, the pointer
      cursor in the active slot, and the buff icons. */
  function IconRegion(icon: Icon, L: SkillLayout, interactive: bool, tipLines: SkillElem -> seq<string>,
                      hasImage: BuffKey -> bool): Region
  {
    Region(Rect(icon.x, icon.y, ICON_SIZE, ICON_SIZE), Some(tipLines(icon.skill)),
           Some(if interactive then SelectAction(icon.skill.actionIndex) else DoNothing), interactive,
           Some(CoverImages(L.coverInfo, icon.skill.buffs) + PartyImages(icon.skill.partyBuffs, hasImage)))
  }

  function IconRegions(icons: seq<Icon>, L: SkillLayout, interactive: bool, tipLines: SkillElem -> seq<string>,
                       hasImage: BuffKey -> bool): seq<Region>
  {
    seq(|icons|, i requires 0 <= i < |icons| => IconRegion(icons[i], L, interactive, tipLines, hasImage))
  }

  /** Everything before the icons, in registration order. */
  function BarLayerRegions(layers: SkillLayers, interactive: bool): seq<Region>
  {
    BarRegions(layers.purpleLockBars, interactive) + BarRegions(layers.gcdBars, interactive)
    + BarRegions(layers.greyLockBars, interactive) + CoverRegions(layers.covers, interactive)
    + BarRegions(layers.buffCovers, interactive)
  }

  /** The regions `drawSkills` registers, in order. */
  function SkillRegions(layers: SkillLayers, L: SkillLayout, interactive: bool, tipLines: SkillElem -> seq<string>,
                        hasImage: BuffKey -> bool): seq<Region>
  {
    BarLayerRegions(layers, interactive) + IconRegions(layers.icons, L, interactive, tipLines, hasImage)
  }

  /** The body of the per-skill loop of `drawSkills`: push what the
      skill contributes to each array. */
  method VisitSkill(layers: SkillLayers, skill: SkillElem, L: SkillLayout) returns (next: SkillLayers)
    requires |layers.covers| == |L.coverInfo|
    ensures next == AddSkill(layers, skill, L)
  {
    next := PushBars(layers, skill, L);
    next := PushCovers(next, skill, L);
  }

  method PushBars(layers: SkillLayers, skill: SkillElem, L: SkillLayout) returns (next: SkillLayers)
    ensures next == AddBars(layers, skill, L)
  {
    var targetCounts := layers.targetCounts;
    if skill.targetCount > 1 {
      targetCounts := targetCounts + [Label(skill, L)];
    }
    var purpleLockBars, snapshots, greyLockBars := layers.purpleLockBars, layers.snapshots, layers.greyLockBars;
    if skill.isSpellCast {
      purpleLockBars := purpleLockBars + [LockBar(skill, L)];
      snapshots := snapshots + [SnapshotX(skill, L)];
    } else {
      greyLockBars := greyLockBars + [LockBar(skill, L)];
    }
    ghost var greyMid := greyLockBars;
    assert greyMid == layers.greyLockBars + (if skill.isSpellCast then [] else [LockBar(skill, L)]);
    var gcdBars := layers.gcdBars;
    if skill.isGCD {
      gcdBars := gcdBars + [RecastBar(skill, L)];
    }
    if skill.isLimitBreak {
      greyLockBars := greyLockBars + [RecastBar(skill, L)];
    }
    var invalidSections := layers.invalidSections;
    if skill.invalid {
      invalidSections := invalidSections + [InvalidRect(skill, L)];
    }
    next := layers.(targetCounts := targetCounts, greyLockBars := greyLockBars, purpleLockBars := purpleLockBars,
                    gcdBars := gcdBars, snapshots := snapshots, invalidSections := invalidSections);
  }

  method PushCovers(layers: SkillLayers, skill: SkillElem, L: SkillLayout) returns (next: SkillLayers)
    requires |layers.covers| == |L.coverInfo|
    ensures next == AddCovers(layers, skill, L)
  {
    var x := SkillX(skill, L);
    var y := SkillY(skill, L);
    var covers := layers.covers;
    var nodeCoverCount := 0;
    var j := 0;
    while j < |L.coverInfo|
      invariant 0 <= j <= |L.coverInfo|
      invariant covers == CoversAfter(layers.covers, L.coverInfo, skill.buffs, x, y, L.drawBuffIndicators, j)
      invariant nodeCoverCount == HeldBefore(L.coverInfo, skill.buffs, j)
    {
      CoversStep(layers.covers, L.coverInfo, skill.buffs, x, y, L.drawBuffIndicators, j);
      if L.coverInfo[j].buff in skill.buffs {
        if L.drawBuffIndicators {
          covers := covers[j := covers[j] + [CoverRect(x, y, nodeCoverCount)]];
        }
        nodeCoverCount := nodeCoverCount + 1;
      }
      j := j + 1;
    }
    var buffCovers := layers.buffCovers;
    if skill.hasPartyBuff && L.drawBuffIndicators {
      buffCovers := buffCovers + [CoverRect(x, y, nodeCoverCount)];
    }
    var icons := layers.icons;
    if skill.hasIcon {
      icons := icons + [Icon(skill, x, y)];
    }
    next := layers.(covers := covers, buffCovers := buffCovers, icons := icons);
  }

  /** The per-skill loop of `drawSkills`. */
  method CollectLayers(elems: seq<SkillElem>, L: SkillLayout) returns (layers: SkillLayers)
    ensures layers == LayersOf(elems, L)
  {
    layers := NoLayers(|L.coverInfo|);
    var n := 0;
    while n < |elems|
      invariant 0 <= n <= |elems|
      invariant |layers.covers| == |L.coverInfo|
      invariant layers == LayersOf(elems[..n], L)
    {
      assert elems[..n + 1][..n] == elems[..n];
      layers := VisitSkill(layers, elems[n], L);
      n := n + 1;
    }
    assert elems[..n] == elems;
  }

  /** One layer's `forEach` with `testInteraction`. */
  method RegisterBars(rects: seq<Rect>, interactive: bool) returns (regions: seq<Region>)
    ensures regions == BarRegions(rects, interactive)
  {
    regions := [];
    var i := 0;
    while i < |rects|
      invariant 0 <= i <= |rects|
      invariant regions == BarRegions(rects[..i], interactive)
    {
      if interactive {
        regions := regions + [Region(rects[i], None, Some(ClickBackground), false, None)];
      }
      i := i + 1;
    }
    assert rects[..i] == rects;
  }

  /** The bars and covers, registered in the order they are drawn. */
  method RegisterBarLayers(layers: SkillLayers, interactive: bool) returns (regions: seq<Region>)
    ensures regions == BarLayerRegions(layers, interactive)
  {
    var purple := RegisterBars(layers.purpleLockBars, interactive);
    var gcd := RegisterBars(layers.gcdBars, interactive);
    var grey := RegisterBars(layers.greyLockBars, interactive);
    regions := purple + gcd + grey;
    var c := 0;
    while c < |layers.covers|
      invariant 0 <= c <= |layers.covers|
      invariant regions == purple + gcd + grey + CoverRegions(layers.covers[..c], interactive)
    {
      assert layers.covers[..c + 1][..c] == layers.covers[..c];
      var coverRegions := RegisterBars(layers.covers[c], interactive);
      regions := regions + coverRegions;
      c := c + 1;
    }
    assert layers.covers[..c] == layers.covers;
    var party := RegisterBars(layers.buffCovers, interactive);
    regions := regions + party;
  }

  /** `drawSkills`: collect the layers, then register bars, covers and
      icons in the order they are drawn. */
  method DrawSkills(elems: seq<SkillElem>, L: SkillLayout, interactive: bool, tipLines: SkillElem -> seq<string>,
                    hasImage: BuffKey -> bool) returns (layers: SkillLayers, regions: seq<Region>)
    ensures layers == LayersOf(elems, L)
    ensures regions == SkillRegions(layers, L, interactive, tipLines, hasImage)
  {
    layers := CollectLayers(elems, L);
    var bars := RegisterBarLayers(layers, interactive);
    var icons := RegisterIcons(layers.icons, L, interactive, tipLines, hasImage);
    regions := bars + icons;
  }

  /** The icons' `forEach` with `testInteraction`, drawn last. */
  method RegisterIcons(icons: seq<Icon>, L: SkillLayout, interactive: bool, tipLines: SkillElem -> seq<string>,
                       hasImage: BuffKey -> bool) returns (regions: seq<Region>)
    ensures regions == IconRegions(icons, L, interactive, tipLines, hasImage)
  {
    regions := [];
    var i := 0;
    while i < |icons|
      invariant 0 <= i <= |icons| && |regions| == i
      invariant forall k :: 0 <= k < i ==> regions[k] == IconRegion(icons[k], L, interactive, tipLines, hasImage)
    {
      regions := regions + [IconRegion(icons[i], L, interactive, tipLines, hasImage)];
      i := i + 1;
    }
  }

  predicate IsSpell(e: SkillElem) { e.isSpellCast }
  predicate IsGCD(e: SkillElem) { e.isGCD }
  predicate IsInstant(e: SkillElem) { !e.isSpellCast }
  predicate IsLimitBreak(e: SkillElem) { e.isLimitBreak }
  predicate IsMultiTarget(e: SkillElem) { e.targetCount > 1 }
  predicate IsInvalid(e: SkillElem) { e.invalid }
  predicate HasIcon(e: SkillElem) { e.hasIcon }
  predicate HasPartyBuff(e: SkillElem) { e.hasPartyBuff }

  function Holds(b: BuffKey): SkillElem -> bool
  {
    (e: SkillElem) => b in e.buffs
  }

  /** How many entries each array gets: a purple bar and a snapshot per
      spell, a grey lock bar per instant plus a grey recast bar per limit
      break, a GCD bar per GCD, a label per multi-target skill, one shading
      per invalid skill and one icon per skill that has one. */
  lemma {:induction false} LayerCounts(elems: seq<SkillElem>, L: SkillLayout)
    ensures var r := LayersOf(elems, L);
      && |r.purpleLockBars| == |r.snapshots| == Count(elems, IsSpell)
      && |r.greyLockBars| == Count(elems, IsInstant) + Count(elems, IsLimitBreak)
      && |r.gcdBars| == Count(elems, IsGCD)
      && |r.targetCounts| == Count(elems, IsMultiTarget)
      && |r.invalidSections| == Count(elems, IsInvalid)
      && |r.icons| == Count(elems, HasIcon)
      && |r.buffCovers| == (if L.drawBuffIndicators then Count(elems, HasPartyBuff) else 0)
      && |r.covers| == |L.coverInfo|
  {
    if elems != [] {
      var init, e := elems[..|elems| - 1], elems[|elems| - 1];
      assert elems == init + [e];
      LayerCounts(init, L);
      CountAppend(init, [e], IsSpell);
      CountAppend(init, [e], IsInstant);
      CountAppend(init, [e], IsLimitBreak);
      CountAppend(init, [e], IsGCD);
      CountAppend(init, [e], IsMultiTarget);
      CountAppend(init, [e], IsInvalid);
      CountAppend(init, [e], HasIcon);
      CountAppend(init, [e], HasPartyBuff);
    }
  }

  /** Each entry of the cover table gets one strip per skill holding its
      buff, and none at all when buff indicators are off. */
  lemma {:induction false} CoverCounts(elems: seq<SkillElem>, L: SkillLayout, i: nat)
    requires i < |L.coverInfo|
    ensures |LayersOf(elems, L).covers| == |L.coverInfo|
    ensures |LayersOf(elems, L).covers[i]|
            == if L.drawBuffIndicators then Count(elems, Holds(L.coverInfo[i].buff)) else 0
  {
    if elems != [] {
      var init, e := elems[..|elems| - 1], elems[|elems| - 1];
      assert elems == init + [e];
      CoverCounts(init, L, i);
      CountAppend(init, [e], Holds(L.coverInfo[i].buff));
    }
  }

  lemma {:induction false} HeldBeforeGrows(coverInfo: seq<CoverInfo>, buffs: set<BuffKey>, i: nat, j: nat)
    requires i < j <= |coverInfo| && coverInfo[i].buff in buffs
    ensures HeldBefore(coverInfo, buffs, i) < HeldBefore(coverInfo, buffs, j)
    decreases j
  {
    if j > i + 1 {
      HeldBeforeGrows(coverInfo, buffs, i, j - 1);
    }
  }

  /** A skill's cover strips stack below its icon without overlapping, in
      table order, and the party-buff strip sits below all of them. */
  lemma CoversStack(coverInfo: seq<CoverInfo>, buffs: set<BuffKey>, x: real, y: real, i: nat, j: nat)
    requires i < j <= |coverInfo| && coverInfo[i].buff in buffs
    ensures var a := CoverRect(x, y, HeldBefore(coverInfo, buffs, i));
            var b := CoverRect(x, y, HeldBefore(coverInfo, buffs, j));
            a.y >= y + ICON_SIZE && b.y >= a.y + a.h
  {
    HeldBeforeGrows(coverInfo, buffs, i, j);
  }

  /** The red shading of an invalid skill reaches at least as far as its
      lock bar, and for a GCD as far as its recast bar too. */
  lemma ShadingCoversBars(e: SkillElem, L: SkillLayout)
    requires L.pixelsPerSecond >= 0.0
    ensures var inv := InvalidRect(e, L);
      && inv.x == SkillX(e, L)
      && LockBar(e, L).x + LockBar(e, L).w <= inv.x + inv.w
      && (e.isGCD ==> RecastBar(e, L).x + RecastBar(e, L).w <= inv.x + inv.w)
  {
    var pps := L.pixelsPerSecond;
    if e.isGCD {
      if e.recastDuration >= e.lockDuration {
        assert e.lockDuration * pps <= e.recastDuration * pps by {
          assert (e.recastDuration - e.lockDuration) * pps >= 0.0;
        }
      } else {
        assert e.recastDuration * pps <= e.lockDuration * pps by {
          assert (e.lockDuration - e.recastDuration) * pps >= 0.0;
        }
      }
    }
  }

  lemma {:induction false} NoCoverRegions(covers: seq<seq<Rect>>)
    ensures CoverRegions(covers, false) == []
  {
    if covers != [] {
      NoCoverRegions(covers[..|covers| - 1]);
    }
  }

  /** Outside the active slot bars and covers register nothing and the
      icons only show their tips. */
  lemma InactiveSlotOnlyIcons(layers: SkillLayers, L: SkillLayout, tipLines: SkillElem -> seq<string>,
                              hasImage: BuffKey -> bool)
    ensures var rs := SkillRegions(layers, L, false, tipLines, hasImage);
      && |rs| == |layers.icons|
      && forall k :: 0 <= k < |rs| ==> rs[k].onClick == Some(DoNothing) && !rs[k].pointerMouse
  {
    NoCoverRegions(layers.covers);
  }

  /** Under the mouse, an icon wins over every bar and cover: the last
      icon containing the mouse is the region that answers. */
  lemma IconsWin(layers: SkillLayers, L: SkillLayout, interactive: bool, tipLines: SkillElem -> seq<string>,
                 hasImage: BuffKey -> bool, mx: real, my: real)
    ensures var icons := IconRegions(layers.icons, L, interactive, tipLines, hasImage);
            var k := LastHit(icons, mx, my);
            var rs := SkillRegions(layers, L, interactive, tipLines, hasImage);
      k >= 0 ==> LastHit(rs, mx, my) == |BarLayerRegions(layers, interactive)| + k
                 && rs[LastHit(rs, mx, my)] == IconRegion(layers.icons[k], L, interactive, tipLines, hasImage)
  {
    var bars := BarLayerRegions(layers, interactive);
    var icons := IconRegions(layers.icons, L, interactive, tipLines, hasImage);
    var k := LastHit(icons, mx, my);
    if k >= 0 {
      LastHitAppend(bars, icons, mx, my);
      var rs := bars + icons;
      assert rs[|bars| + k] == icons[k];
      assert icons[k] == IconRegion(layers.icons[k], L, interactive, tipLines, hasImage);
    }
  }

  /** With no icon under the mouse, the bars and covers answer as if the
      icons were not there. */
  lemma BarsAnswerOffIcons(layers: SkillLayers, L: SkillLayout, interactive: bool,
                           tipLines: SkillElem -> seq<string>, hasImage: BuffKey -> bool, mx: real, my: real)
    requires LastHit(IconRegions(layers.icons, L, interactive, tipLines, hasImage), mx, my) < 0
    ensures LastHit(SkillRegions(layers, L, interactive, tipLines, hasImage), mx, my)
            == LastHit(BarLayerRegions(layers, interactive), mx, my)
  {
    LastHitAppend(BarLayerRegions(layers, interactive), IconRegions(layers.icons, L, interactive, tipLines, hasImage), mx, my);
  }

  /** The buff icons in a tip: exactly the held buffs whose cover-table
      entry shows an image, in table order. */
  lemma {:induction false} CoverImagesExact(coverInfo: seq<CoverInfo>, buffs: set<BuffKey>, img: Option<Image>)
    ensures img in CoverImages(coverInfo, buffs) <==>
            exists i :: 0 <= i < |coverInfo| && coverInfo[i].showImage && coverInfo[i].buff in buffs
                        && img == Some(coverInfo[i].buff)
  {
    if coverInfo != [] {
      var init := coverInfo[..|coverInfo| - 1];
      CoverImagesExact(init, buffs, img);
      if img in CoverImages(init, buffs) {
        var i :| 0 <= i < |init| && init[i].showImage && init[i].buff in buffs && img == Some(init[i].buff);
        assert coverInfo[i] == init[i];
      }
      if exists i :: 0 <= i < |coverInfo| && coverInfo[i].showImage && coverInfo[i].buff in buffs
                     && img == Some(coverInfo[i].buff) {
        var i :| 0 <= i < |coverInfo| && coverInfo[i].showImage && coverInfo[i].buff in buffs
                 && img == Some(coverInfo[i].buff);
        if i < |init| {
          assert init[i] == coverInfo[i];
        }
      }
    }
  }
}
