/** Potency marks on a timeline slot (`drawPotencyMarks`): a small
    triangle per damage, healing or aggro event, whose hover tip lists one
    line per potency source (zero when the boss is untargetable, "LB" for
    a limit break, a primary and a splash line for multi-target hits) and
    whose tip icons hold the tincture at most once. */
module PotencyMarks {
  import opened Wrappers
  import opened Sequences
  import opened HitTest

  type BuffKey = string

  /** The buff name the mark's buff list uses for a tincture. */
  const TINCTURE: BuffKey := "TINCTURE"

  datatype MarkType = DamageMark | HealingMark | AggroMark

  /** One entry of `potencyInfos`: `amount` is what `getAmount` returns
      (with party buffs, without splash) and `source` is the source
      description with the skill name filled in. */
  datatype PotencyInfo = PotencyInfo(
    source: string, isLimitBreak: bool, amount: real, targetCount: int, falloff: Option<real>,
    partyBuffs: seq<BuffKey>)

  datatype PotencyMark = PotencyMark(displayTime: real, kind: MarkType, buffs: seq<BuffKey>, infos: seq<PotencyInfo>)

  /** A hover-tip line before number formatting and localisation. A
      splash line carries the " x n" multiplier only when more than one
      additional target is hit. */
  datatype HoverLine =
    | Header(time: real, kind: MarkType)
    | ZeroLine(source: string)
    | LBLine(source: string)
    | PlainLine(amount: real, source: string)
    | PrimaryLine(amount: real, source: string)
    | SplashLine(amount: real, multiplier: Option<int>, additionalTargets: int, source: string)
    | UntargetableNote

  /** Untargetability is consulted for damage marks only. */
  predicate MarkUntargetable(mark: PotencyMark, bossUntargetable: real -> bool)
  {
    mark.kind == DamageMark && bossUntargetable(mark.displayTime)
  }

  /** The lines one potency source contributes. */
  function InfoLines(p: PotencyInfo, untargetable: bool): seq<HoverLine>
  {
    if untargetable then [ZeroLine(p.source)]
    else if p.isLimitBreak then [LBLine(p.source)]
    else if p.targetCount > 1 then
      var splashTargets := p.targetCount - 1;
      [PrimaryLine(p.amount, p.source),
       SplashLine(p.amount * (1.0 - p.falloff.GetOr(1.0)), if splashTargets > 1 then Some(splashTargets) else None,
                  splashTargets, p.source)]
    else [PlainLine(p.amount, p.source)]
  }

  /** The `info` array after visiting `infos` in order. */
  function AllInfoLines(infos: seq<PotencyInfo>, untargetable: bool): seq<HoverLine>
  {
    if infos == [] then []
    else AllInfoLines(infos[..|infos| - 1], untargetable) + InfoLines(infos[|infos| - 1], untargetable)
  }

  /** The whole hover tip of a mark. */
  function MarkLines(mark: PotencyMark, untargetable: bool): seq<HoverLine>
  {
    [Header(mark.displayTime, mark.kind)] + AllInfoLines(mark.infos, untargetable)
    + (if untargetable then [UntargetableNote] else [])
  }

  /** The tip icons after visiting `infos`: the tincture is added when a
      counted source is met, if not already there; the party-buff loop
      calls `push()` without an argument and so adds nothing. */
  function MarkImages(infos: seq<PotencyInfo>, untargetable: bool, pot: bool): seq<Option<Image>>
  {
    if infos == [] then []
    else WithTincture(MarkImages(infos[..|infos| - 1], untargetable, pot), infos[|infos| - 1], untargetable, pot)
  }

  /** The icons after visiting one more source. */
  function WithTincture(prev: seq<Option<Image>>, p: PotencyInfo, untargetable: bool, pot: bool): seq<Option<Image>>
  {
    if !untargetable && !p.isLimitBreak && pot && Some(TINCTURE) !in prev then prev + [Some(TINCTURE)] else prev
  }

  /** Healing marks point up and are hit a little lower. */
  function InteractionArea(mark: PotencyMark, x: real, originY: real): Rect
  {
    if mark.kind == HealingMark then Rect(x - 3.0, originY + 6.0, 6.0, 6.0) else Rect(x - 3.0, originY, 6.0, 6.0)
  }

  function Rendered(lines: seq<HoverLine>, render: HoverLine -> string): seq<string>
  {
    seq(|lines|, i requires 0 <= i < |lines| => render(lines[i]))
  }

  /** The region one mark registers: no click handler, no pointer cursor. */
  function MarkRegion(mark: PotencyMark, originX: real, originY: real, pixelsPerSecond: real,
                      bossUntargetable: real -> bool, render: HoverLine -> string): Region
  {
    var u := MarkUntargetable(mark, bossUntargetable);
    Region(InteractionArea(mark, originX + mark.displayTime * pixelsPerSecond, originY),
           Some(Rendered(MarkLines(mark, u), render)), None, false,
           Some(MarkImages(mark.infos, u, TINCTURE in mark.buffs)))
  }

  /** The hover lines and icons of one mark, built the way the source
      loops over `potencyInfos`. */
  method MarkTip(mark: PotencyMark, untargetable: bool) returns (lines: seq<HoverLine>, images: seq<Option<Image>>)
    ensures lines == MarkLines(mark, untargetable)
    ensures images == MarkImages(mark.infos, untargetable, TINCTURE in mark.buffs)
  {
    var pot := TINCTURE in mark.buffs;
    var info: seq<HoverLine> := [];
    images := [];
    var i := 0;
    while i < |mark.infos|
      invariant 0 <= i <= |mark.infos|
      invariant info == AllInfoLines(mark.infos[..i], untargetable)
      invariant images == MarkImages(mark.infos[..i], untargetable, pot)
    {
      assert mark.infos[..i + 1][..i] == mark.infos[..i];
      assert mark.infos[..i + 1][i] == mark.infos[i];
      info, images := VisitInfo(mark.infos[i], untargetable, pot, info, images);
      i := i + 1;
    }
    assert mark.infos[..i] == mark.infos;
    lines := [Header(mark.displayTime, mark.kind)] + info + (if untargetable then [UntargetableNote] else []);
  }

  /** The body of the loop over `potencyInfos`: the source's lines, and the
      tincture icon the first time a counted source is met. */
  method VisitInfo(p: PotencyInfo, untargetable: bool, pot: bool, info: seq<HoverLine>, images: seq<Option<Image>>)
    returns (info': seq<HoverLine>, images': seq<Option<Image>>)
    ensures info' == info + InfoLines(p, untargetable)
    ensures images' == WithTincture(images, p, untargetable, pot)
  {
    info', images' := info, images;
    if untargetable {
      info' := info' + [ZeroLine(p.source)];
    } else if p.isLimitBreak {
      info' := info' + [LBLine(p.source)];
    } else {
      if p.targetCount > 1 {
        var splashPotencyAmount := p.amount * (1.0 - p.falloff.GetOr(1.0));
        var splashTargets := p.targetCount - 1;
        var primary := PrimaryLine(p.amount, p.source);
        var splash := SplashLine(splashPotencyAmount, if splashTargets > 1 then Some(splashTargets) else None,
                                 splashTargets, p.source);
        info' := info' + [primary];
        info' := info' + [splash];
        assert InfoLines(p, untargetable)[0] == primary && InfoLines(p, untargetable)[1] == splash;
        assert |InfoLines(p, untargetable)| == 2;
        assert info' == info + [primary] + [splash];
      } else {
        info' := info' + [PlainLine(p.amount, p.source)];
      }
      if pot && Some(TINCTURE) !in images' {
        images' := images' + [Some(TINCTURE)];
      }
      ghost var images1 := images';
      var b := 0;
      while b < |p.partyBuffs|
        invariant 0 <= b <= |p.partyBuffs|
        invariant images' == images1
      {
        // `buffImages.push()` is called without an argument
        images' := images' + [];
        b := b + 1;
      }
    }
  }

  /** `drawPotencyMarks`: one region per mark, in order. */
  method DrawPotencyMarks(elems: seq<PotencyMark>, originX: real, originY: real, pixelsPerSecond: real,
                          bossUntargetable: real -> bool, render: HoverLine -> string) returns (regions: seq<Region>)
    ensures |regions| == |elems|
    ensures forall k :: 0 <= k < |elems| ==>
              regions[k] == MarkRegion(elems[k], originX, originY, pixelsPerSecond, bossUntargetable, render)
  {
    regions := [];
    var n := 0;
    while n < |elems|
      invariant 0 <= n <= |elems|
      invariant |regions| == n
      invariant forall k :: 0 <= k < n ==>
                  regions[k] == MarkRegion(elems[k], originX, originY, pixelsPerSecond, bossUntargetable, render)
    {
      var mark := elems[n];
      var untargetable := mark.kind == DamageMark && bossUntargetable(mark.displayTime);
      var x := originX + mark.displayTime * pixelsPerSecond;
      var lines, images := MarkTip(mark, untargetable);
      var area := if mark.kind == HealingMark then Rect(x - 3.0, originY + 6.0, 6.0, 6.0)
                  else Rect(x - 3.0, originY, 6.0, 6.0);
      regions := regions + [Region(area, Some(Rendered(lines, render)), None, false, Some(images))];
      n := n + 1;
    }
  }

  predicate IsZeroLine(l: HoverLine) { l.ZeroLine? }
  predicate IsSplashLine(l: HoverLine) { l.SplashLine? }
  predicate Splashes(p: PotencyInfo) { !p.isLimitBreak && p.targetCount > 1 }
  predicate IsLimitBreak(p: PotencyInfo) { p.isLimitBreak }
  predicate Counted(p: PotencyInfo) { !p.isLimitBreak }

  lemma InfoLineCounts(p: PotencyInfo, untargetable: bool)
    ensures Count(InfoLines(p, untargetable), IsZeroLine) == if untargetable then 1 else 0
    ensures Count(InfoLines(p, untargetable), IsSplashLine) == if !untargetable && Splashes(p) then 1 else 0
  {
    var ls := InfoLines(p, untargetable);
    var rest := ls[1..];
    if |ls| == 2 {
      assert rest[1..] == [];
      assert Count(rest, IsZeroLine) == (if IsZeroLine(rest[0]) then 1 else 0) + Count(rest[1..], IsZeroLine);
      assert Count(rest, IsSplashLine) == (if IsSplashLine(rest[0]) then 1 else 0) + Count(rest[1..], IsSplashLine);
    } else {
      assert rest == [];
    }
    assert Count(ls, IsZeroLine) == (if IsZeroLine(ls[0]) then 1 else 0) + Count(rest, IsZeroLine);
    assert Count(ls, IsSplashLine) == (if IsSplashLine(ls[0]) then 1 else 0) + Count(rest, IsSplashLine);
  }

  /** A healing or aggro mark is never shown as untargetable. */
  lemma OnlyDamageUntargetable(mark: PotencyMark, bossUntargetable: real -> bool)
    ensures MarkUntargetable(mark, bossUntargetable) ==> mark.kind == DamageMark
    ensures mark.kind == DamageMark ==> (MarkUntargetable(mark, bossUntargetable) <==> bossUntargetable(mark.displayTime))
  {
  }

  /** While the boss is untargetable every source shows a zero line and
      the tip ends with the untargetable note; otherwise no zero line and
      no note appear. */
  lemma {:induction false} UntargetableShowsZero(infos: seq<PotencyInfo>, untargetable: bool)
    ensures untargetable ==> AllInfoLines(infos, untargetable) == seq(|infos|, i requires 0 <= i < |infos| => ZeroLine(infos[i].source))
    ensures !untargetable ==> Count(AllInfoLines(infos, untargetable), IsZeroLine) == 0
  {
    if infos != [] {
      var init := infos[..|infos| - 1];
      UntargetableShowsZero(init, untargetable);
      InfoLineCounts(infos[|infos| - 1], untargetable);
      CountAppend(AllInfoLines(init, untargetable), InfoLines(infos[|infos| - 1], untargetable), IsZeroLine);
    }
  }

  /** Splash lines: exactly one per multi-target source that is not a
      limit break, and none while the boss is untargetable. */
  lemma {:induction false} SplashLineCount(infos: seq<PotencyInfo>, untargetable: bool)
    ensures Count(AllInfoLines(infos, untargetable), IsSplashLine) == if untargetable then 0 else Count(infos, Splashes)
  {
    if infos != [] {
      var init, p := infos[..|infos| - 1], infos[|infos| - 1];
      assert infos == init + [p];
      SplashLineCount(init, untargetable);
      InfoLineCounts(p, untargetable);
      CountAppend(AllInfoLines(init, untargetable), InfoLines(p, untargetable), IsSplashLine);
      CountAppend(init, [p], Splashes);
    }
  }

  /** The splash line of one source: `targetCount - 1` additional targets,
      the " x n" multiplier only beyond one, and a splash amount between
      zero and the primary amount when the falloff is a fraction. */
  lemma SplashLineRules(p: PotencyInfo)
    requires Splashes(p)
    ensures var l := InfoLines(p, false)[1];
      && l.SplashLine?
      && l.additionalTargets == p.targetCount - 1 >= 1
      && (l.multiplier.Some? <==> p.targetCount > 2)
      && (l.multiplier.Some? ==> l.multiplier.value == l.additionalTargets)
      && (p.amount >= 0.0 && (p.falloff.Some? ==> 0.0 <= p.falloff.value <= 1.0) ==> 0.0 <= l.amount <= p.amount)
  {
    var f := p.falloff.GetOr(1.0);
    if p.amount >= 0.0 && 0.0 <= f <= 1.0 {
      assert p.amount * (1.0 - f) <= p.amount * 1.0 by {
        assert p.amount * f >= 0.0;
      }
      assert p.amount * (1.0 - f) >= 0.0;
    }
  }

  /** Without a falloff a splash hit is worth nothing to the extra targets. */
  lemma NoFalloffNoSplash(p: PotencyInfo)
    requires Splashes(p) && p.falloff == None
    ensures InfoLines(p, false)[1].amount == 0.0
  {
  }

  /** The tip icons hold the tincture at most once, and only when the mark
      carries the tincture buff, the boss is targetable and some source is
      not a limit break; party-buff icons never appear. */
  lemma {:induction false} TinctureAtMostOnce(infos: seq<PotencyInfo>, untargetable: bool, pot: bool)
    ensures MarkImages(infos, untargetable, pot)
            == if pot && !untargetable && Count(infos, Counted) > 0 then [Some(TINCTURE)] else []
  {
    if infos != [] {
      var init, p := infos[..|infos| - 1], infos[|infos| - 1];
      assert infos == init + [p];
      TinctureAtMostOnce(init, untargetable, pot);
      CountAppend(init, [p], Counted);
    }
  }
}
