/** Committing the configuration form to the simulator
    (`Config.setConfigAndRestart`), the random-seed fallback of
    `handleSubmit`, and the GCD preview (`getGcdTaxPreview`). */
module ConfigCommit {
  import opened Wrappers
  import opened Resources
  import Sequences

  type Job = string

  datatype ProcMode = RNG | Never | Always

  /** The numeric inputs of the form, as the strings the text fields hold. */
  datatype StatFields = StatFields(
    level: string,
    spellSpeed: string,
    skillSpeed: string,
    criticalHit: string,
    directHit: string,
    determination: string,
    piety: string,
    animationLock: string,
    fps: string,
    gcdSkillCorrection: string,
    timeTillFirstManaTick: string,
    countdown: string)

  /** The part of the form's state handed to `setConfigAndRestart`. The
      override list may be missing in a configuration loaded from a file. */
  datatype ConfigFields = ConfigFields(
    job: Job,
    stats: StatFields,
    randomSeed: string,
    procMode: ProcMode,
    initialResourceOverrides: Option<seq<ResourceOverride>>)

  /** What the simulator is restarted with. `piety` may be NaN (None):
      it is parsed but never checked. */
  datatype GameConfig = GameConfig(
    job: Job,
    level: real,
    spellSpeed: real,
    skillSpeed: real,
    criticalHit: real,
    directHit: real,
    determination: real,
    piety: Option<real>,
    animationLock: real,
    fps: real,
    gcdSkillCorrection: real,
    timeTillFirstManaTick: real,
    countdown: real,
    randomSeed: string,
    procMode: ProcMode,
    initialResourceOverrides: seq<ResourceOverride>)

  datatype CommitError =
    | FieldsNotNumbers   // "Some config fields are not numbers!"
    | InvalidJob(job: Job)

  /** The fields checked for NaN, in the order the source checks them. Piety
      is not among them. */
  function CheckedFields(s: StatFields): (r: seq<string>)
    ensures |r| == 11
  {
    [s.spellSpeed, s.skillSpeed, s.criticalHit, s.directHit, s.determination,
     s.animationLock, s.fps, s.gcdSkillCorrection, s.timeTillFirstManaTick,
     s.countdown, s.level]
  }

  /** ECMAScript WhiteSpace and LineTerminator code points: what `trim` strips. */
  predicate IsJsSpace(c: char)
  {
    var n := c as int;
    || 0x09 <= n <= 0x0D || n == 0x20 || n == 0xA0 || n == 0x1680
    || 0x2000 <= n <= 0x200A || n == 0x2028 || n == 0x2029 || n == 0x202F
    || n == 0x205F || n == 0x3000 || n == 0xFEFF
  }

  function TrimStart(s: string): (r: string)
    ensures |r| <= |s| && r == s[|s| - |r|..]
    ensures r == [] || !IsJsSpace(r[0])
    ensures forall i :: 0 <= i < |s| - |r| ==> IsJsSpace(s[i])
  {
    if s != [] && IsJsSpace(s[0]) then TrimStart(s[1..]) else s
  }

  function TrimEnd(s: string): (r: string)
    ensures |r| <= |s| && r == s[..|r|]
    ensures r == [] || !IsJsSpace(r[|r| - 1])
    ensures forall i :: |r| <= i < |s| ==> IsJsSpace(s[i])
  {
    if s != [] && IsJsSpace(s[|s| - 1]) then TrimEnd(s[..|s| - 1]) else s
  }

  /** `String.prototype.trim`. */
  function Trim(s: string): string
  {
    TrimEnd(TrimStart(s))
  }

  /** Number of leading white-space characters `trim` drops. */
  function TrimOffset(s: string): nat
  {
    |s| - |TrimStart(s)|
  }

  /** Trimming leaves a contiguous part of the seed with no white space at
      either end and drops only white space; trimming twice changes nothing. */
  lemma TrimSpec(s: string)
    ensures var t, lo := Trim(s), TrimOffset(s);
      && (t == [] || (!IsJsSpace(t[0]) && !IsJsSpace(t[|t| - 1])))
      && lo + |t| <= |s| && t == s[lo..lo + |t|]
      && (forall i :: 0 <= i < lo ==> IsJsSpace(s[i]))
      && (forall i :: lo + |t| <= i < |s| ==> IsJsSpace(s[i]))
    ensures Trim(Trim(s)) == Trim(s)
  {
    TrimKeepsSlice(s);
    TrimDropsSpace(s);
    TrimIdempotent(Trim(s));
  }

  /** What `trim` keeps: a slice of the input, with no white space at its ends. */
  lemma TrimKeepsSlice(s: string)
    ensures var t, lo := Trim(s), TrimOffset(s);
      && (t == [] || (!IsJsSpace(t[0]) && !IsJsSpace(t[|t| - 1])))
      && lo + |t| <= |s| && t == s[lo..lo + |t|]
  {
    var a := TrimStart(s);
    var t := TrimEnd(a);
    if t != [] {
      assert t[0] == a[0];
    }
  }

  /** What `trim` drops: only white space, before and after the slice it keeps. */
  lemma TrimDropsSpace(s: string)
    ensures var t, lo := Trim(s), TrimOffset(s);
      && (forall i :: 0 <= i < lo ==> IsJsSpace(s[i]))
      && (forall i :: lo + |t| <= i < |s| ==> IsJsSpace(s[i]))
  {
    var a := TrimStart(s);
    var t := TrimEnd(a);
    Sequences.SuffixAll(s, |s| - |a|, |t|, IsJsSpace);
  }

  lemma TrimIdempotent(t: string)
    requires t == [] || (!IsJsSpace(t[0]) && !IsJsSpace(t[|t| - 1]))
    ensures Trim(t) == t
  {
  }

  /** `setConfigAndRestart`: refuse the whole form if a checked field is not
      a number or the job is unknown; otherwise the configuration to restart
      with. `parseFloat` is the text-to-number conversion (None for NaN). */
  function CommitConfig(c: ConfigFields, parseFloat: string -> Option<real>, jobs: set<Job>)
    : (r: Result<GameConfig, CommitError>)
    ensures r.Success? <==>
      (forall f :: f in CheckedFields(c.stats) ==> parseFloat(f).Some?) && c.job in jobs
    ensures (exists f :: f in CheckedFields(c.stats) && parseFloat(f).None?) ==> r == Failure(FieldsNotNumbers)
    ensures r.Success? ==>
      && r.value.job == c.job
      && r.value.piety == parseFloat(c.stats.piety)
      && r.value.randomSeed == Trim(c.randomSeed)
      && r.value.initialResourceOverrides == c.initialResourceOverrides.GetOr([])
      && Some(r.value.level) == parseFloat(c.stats.level)
      && Some(r.value.spellSpeed) == parseFloat(c.stats.spellSpeed)
      && Some(r.value.skillSpeed) == parseFloat(c.stats.skillSpeed)
      && Some(r.value.criticalHit) == parseFloat(c.stats.criticalHit)
      && Some(r.value.directHit) == parseFloat(c.stats.directHit)
      && Some(r.value.determination) == parseFloat(c.stats.determination)
      && Some(r.value.animationLock) == parseFloat(c.stats.animationLock)
      && Some(r.value.fps) == parseFloat(c.stats.fps)
      && Some(r.value.gcdSkillCorrection) == parseFloat(c.stats.gcdSkillCorrection)
      && Some(r.value.timeTillFirstManaTick) == parseFloat(c.stats.timeTillFirstManaTick)
      && Some(r.value.countdown) == parseFloat(c.stats.countdown)
      && r.value.procMode == c.procMode
  {
    var s := c.stats;
    if exists f :: f in CheckedFields(s) && parseFloat(f).None? then
      Failure(FieldsNotNumbers)
    else if c.job !in jobs then
      Failure(InvalidJob(c.job))
    else
      assert forall f :: f in CheckedFields(s) ==> parseFloat(f).Some?;
      assert CheckedFields(s)[10] == s.level;
      var overrides := c.initialResourceOverrides.GetOr([]);
      Success(GameConfig(
        c.job,
        parseFloat(s.level).value,
        parseFloat(s.spellSpeed).value,
        parseFloat(s.skillSpeed).value,
        parseFloat(s.criticalHit).value,
        parseFloat(s.directHit).value,
        parseFloat(s.determination).value,
        parseFloat(s.piety),
        parseFloat(s.animationLock).value,
        parseFloat(s.fps).value,
        parseFloat(s.gcdSkillCorrection).value,
        parseFloat(s.timeTillFirstManaTick).value,
        parseFloat(s.countdown).value,
        Trim(c.randomSeed),
        c.procMode,
        overrides))
  }

  /** Piety is never checked: a form whose only non-number is piety is
      committed, with a NaN piety. */
  lemma PietyNotChecked(c: ConfigFields, parseFloat: string -> Option<real>, jobs: set<Job>)
    requires forall f :: f in CheckedFields(c.stats) ==> parseFloat(f).Some?
    requires c.job in jobs
    requires parseFloat(c.stats.piety).None?
    ensures CommitConfig(c, parseFloat, jobs).Success?
    ensures CommitConfig(c, parseFloat, jobs).value.piety.None?
  {
  }

  /** The timing maths the preview calls, which is not part of this model:
      `XIVMath.preTaxGcd(level, speed, baseGcd, speedModifier)` and
      `XIVMath.afterFpsTax(fps, gcd)`. */
  datatype TimingMath = TimingMath(
    preTaxGcd: (real, real, real, Option<real>) -> real,
    afterFpsTax: (real, real) -> real)

  /** The lowest speed substat the preview accepts. */
  const MIN_SPEED: real := 400.0

  /** The two preview values, or "n/a". */
  datatype GcdPreview = NotApplicable | Preview(gcd: real, taxedGcd: real)

  /** `getGcdTaxPreview`: "n/a" when an input is not a number or the speed
      is below the floor; otherwise the 2.5 s GCD before and after FPS tax. */
  function GcdTaxPreview(speedStr: string, fpsStr: string, levelStr: string, speedModifier: Option<real>,
                         parseFloat: string -> Option<real>, math: TimingMath): (r: GcdPreview)
    ensures r.Preview? <==>
      parseFloat(levelStr).Some? && parseFloat(speedStr).Some? && parseFloat(fpsStr).Some?
      && parseFloat(speedStr).value >= MIN_SPEED
    ensures r.Preview? ==>
      && r.gcd == math.preTaxGcd(parseFloat(levelStr).value, parseFloat(speedStr).value, 2.5, speedModifier)
      && r.taxedGcd == math.afterFpsTax(parseFloat(fpsStr).value, r.gcd)
  {
    var level, speed, fps := parseFloat(levelStr), parseFloat(speedStr), parseFloat(fpsStr);
    if level.None? || speed.None? || fps.None? || speed.value < MIN_SPEED then NotApplicable
    else
      var gcd := math.preTaxGcd(level.value, speed.value, 2.5, speedModifier);
      Preview(gcd, math.afterFpsTax(fps.value, gcd))
  }

  predicate IsDigit(c: char) { '0' <= c <= '9' }

  /** The seed `handleSubmit` makes up for an empty seed field: four decimal
      digits, each any of 0 to 9 (a `Math.random` draw in the source). */
  method GenerateSeed() returns (seed: string)
    ensures |seed| == 4
    ensures forall i :: 0 <= i < |seed| ==> IsDigit(seed[i])
  {
    seed := "";
    var i := 0;
    while i < 4
      invariant 0 <= i <= 4
      invariant |seed| == i
      invariant forall j :: 0 <= j < |seed| ==> IsDigit(seed[j])
    {
      var d: int :| 0 <= d < 10;
      seed := seed + [('0' as int + d) as char];
      i := i + 1;
    }
  }
}
