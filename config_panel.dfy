/** The configuration panel (`class Config` of PlaybackControl.tsx): the
    form state, the override list it edits in place and the submit path
    that restarts the simulator. React's `setState` is modelled as direct
    field assignment, in the order the handlers issue it. */
module ConfigPanel {
  import opened Wrappers
  import opened Sequences
  import opened Resources
  import opened OverrideCheck
  import opened OverrideEditor
  import opened ConfigCommit

  /** What the panel consults but does not own: number parsing, the known
      jobs, each job's resource table, each job's inherent speed modifier
      and the timing maths. */
  datatype Env = Env(
    parseFloat: string -> Option<real>,
    parseInt: string -> Option<int>,
    jobs: set<Job>,
    resources: Job -> ResourceTable,
    speedModifier: Job -> Option<real>,
    math: TimingMath)

  /** Matches overrides of type `t` (the test of `deleteResourceOverride`). */
  function OfType(t: Key): ResourceOverride -> bool
  {
    (o: ResourceOverride) => o.rscType == t
  }

  /** Matches the field name `f` (the test of `indexOf`). */
  function IsField(f: string): string -> bool
  {
    (g: string) => g == f
  }

  class Config {
    const env: Env

    var job: Job
    var stats: StatFields
    var randomSeed: string
    var procMode: ProcMode
    var initialResourceOverrides: seq<ResourceOverride>
    var importedFields: seq<string>
    var imported: bool
    var dirty: bool

    var selectedOverrideResource: Key
    var overrideTimer: string
    var overrideStacks: string
    var overrideEnabled: bool

    var gcdPreview: GcdPreview
    var sksGcdPreview: GcdPreview

    /** The configurations the simulator has been restarted with, oldest first. */
    var restarts: seq<GameConfig>

    /** The panel's initial state. */
    constructor (env: Env)
      ensures this.env == env
      ensures job == "BLM" && randomSeed == "" && procMode == RNG
      ensures stats == StatFields("100", "0", "0", "0", "0", "0", "0", "0", "0", "0", "0", "0")
      ensures initialResourceOverrides == [] && importedFields == [] && !imported && !dirty
      ensures selectedOverrideResource == "MANA" && overrideTimer == "0" && overrideStacks == "0" && overrideEnabled
      ensures gcdPreview == NotApplicable && sksGcdPreview == NotApplicable
      ensures restarts == []
    {
      this.env := env;
      job := "BLM";
      stats := StatFields("100", "0", "0", "0", "0", "0", "0", "0", "0", "0", "0", "0");
      randomSeed := "";
      procMode := RNG;
      initialResourceOverrides := [];
      importedFields := [];
      imported := false;
      dirty := false;
      selectedOverrideResource := "MANA";
      overrideTimer := "0";
      overrideStacks := "0";
      overrideEnabled := true;
      gcdPreview := NotApplicable;
      sksGcdPreview := NotApplicable;
      restarts := [];
    }

    /** The override the form's current inputs describe, or why they are refused. */
    function PendingOverride(): Result<ResourceOverride, AddError>
      reads this
    {
      NewOverride(env.resources(job), selectedOverrideResource, overrideTimer,
                  env.parseFloat(overrideTimer), env.parseInt(overrideStacks), overrideEnabled)
    }

    /** `#addResourceOverride`: on valid inputs push exactly one record at
        the end of the list and mark the form dirty; otherwise change nothing. */
    method AddResourceOverride() returns (err: Option<AddError>)
      modifies this`initialResourceOverrides, this`dirty
      ensures old(PendingOverride()).Success? ==>
        initialResourceOverrides == old(initialResourceOverrides) + [old(PendingOverride()).value]
        && dirty && err == None
      ensures old(PendingOverride()).Failure? ==>
        initialResourceOverrides == old(initialResourceOverrides) && dirty == old(dirty)
        && err == Some(old(PendingOverride()).error)
    {
      var r := PendingOverride();
      if r.Failure? {
        return Some(r.error);
      }
      initialResourceOverrides := initialResourceOverrides + [r.value];
      dirty := true;
      err := None;
    }

    /** Submitting the "add override" form: add, then pre-select the first
        resource still without an override. */
    method SubmitOverrideForm() returns (err: Option<AddError>)
      modifies this`initialResourceOverrides, this`dirty, this`selectedOverrideResource
      ensures old(PendingOverride()).Success? ==>
        initialResourceOverrides == old(initialResourceOverrides) + [old(PendingOverride()).value]
      ensures old(PendingOverride()).Success? ==> dirty
      ensures old(PendingOverride()).Failure? ==>
        initialResourceOverrides == old(initialResourceOverrides) && dirty == old(dirty)
      ensures err.Some? <==> old(PendingOverride()).Failure?
      ensures var keys := env.resources(job).Keys();
        var i := FirstIndex(keys, Untaken(initialResourceOverrides));
        selectedOverrideResource == if i < 0 then NO_ADDABLE else keys[i]
    {
      err := AddResourceOverride();
      selectedOverrideResource := FirstAddable(env.resources(job).Keys(), initialResourceOverrides);
    }

    /** Choosing a resource in the drop-down; the "enabled" box keeps its
        value only for ley lines and is reset to checked otherwise. */
    method SelectOverrideResource(rsc: Key)
      modifies this`selectedOverrideResource, this`overrideEnabled
      ensures selectedOverrideResource == rsc
      ensures overrideEnabled == (if rsc == LEY_LINES then old(overrideEnabled) else true)
    {
      selectedOverrideResource := rsc;
      if rsc != LEY_LINES {
        overrideEnabled := true;
      }
    }

    /** `deleteResourceOverride`: splice out the first override of type
        `rscType`, if any, and mark the form dirty. */
    method DeleteResourceOverride(rscType: Key)
      modifies this`initialResourceOverrides, this`dirty
      ensures initialResourceOverrides == RemoveFirst(old(initialResourceOverrides), OfType(rscType))
      ensures dirty
    {
      var i := 0;
      while i < |initialResourceOverrides|
        invariant 0 <= i <= |initialResourceOverrides|
        invariant initialResourceOverrides == old(initialResourceOverrides)
        invariant forall j :: 0 <= j < i ==> !OfType(rscType)(initialResourceOverrides[j])
      {
        if initialResourceOverrides[i].rscType == rscType {
          initialResourceOverrides := RemoveAt(initialResourceOverrides, i);
          break;
        }
        i := i + 1;
      }
      dirty := true;
    }

    /** The "clear all overrides" button. */
    method ClearOverrides()
      modifies this`initialResourceOverrides, this`dirty
      ensures initialResourceOverrides == [] && dirty
    {
      initialResourceOverrides := [];
      dirty := true;
    }

    /** `removeImportedField`: splice out the first occurrence of `field`
        from the list of fields filled by a gear import. */
    method RemoveImportedField(field: string)
      modifies this`importedFields
      ensures importedFields == RemoveFirst(old(importedFields), IsField(field))
    {
      var idx := FirstIndex(importedFields, IsField(field));
      if idx >= 0 {
        importedFields := RemoveAt(importedFields, idx);
      }
    }

    /** `setJob`: a different job drops every override; the job field is no
        longer an imported value; both GCD previews are recomputed. The
        skill-speed preview asks for the speed modifier of the job held
        before this change, because the handler reads the state before
        React applies the update. */
    method SetJob(newJob: Job)
      modifies this`initialResourceOverrides, this`job, this`dirty, this`importedFields,
               this`gcdPreview, this`sksGcdPreview
      ensures job == newJob && dirty
      ensures initialResourceOverrides == if newJob != old(job) then [] else old(initialResourceOverrides)
      ensures importedFields == RemoveFirst(old(importedFields), IsField("job"))
      ensures gcdPreview == GcdTaxPreview(stats.spellSpeed, stats.fps, stats.level, None, env.parseFloat, env.math)
      ensures sksGcdPreview ==
        GcdTaxPreview(stats.skillSpeed, stats.fps, stats.level, env.speedModifier(old(job)), env.parseFloat, env.math)
    {
      var previousJob := job;
      if newJob != job {
        initialResourceOverrides := [];
        dirty := true;
      }
      job := newJob;
      dirty := true;
      RemoveImportedField("job");
      gcdPreview := GcdTaxPreview(stats.spellSpeed, stats.fps, stats.level, None, env.parseFloat, env.math);
      sksGcdPreview := GcdTaxPreview(stats.skillSpeed, stats.fps, stats.level, env.speedModifier(previousJob),
                                     env.parseFloat, env.math);
    }

    /** The form as handed to `setConfigAndRestart` with seed `seed`. */
    function Fields(seed: string): ConfigFields
      reads this
    {
      ConfigFields(job, stats, seed, procMode, Some(initialResourceOverrides))
    }

    /** `setConfigAndRestart`: restart the simulator with the parsed
        configuration, or refuse and change nothing. */
    method SetConfigAndRestart(c: ConfigFields) returns (r: Result<GameConfig, CommitError>)
      modifies this`restarts
      ensures r == CommitConfig(c, env.parseFloat, env.jobs)
      ensures restarts == old(restarts) + (if r.Success? then [r.value] else [])
    {
      r := CommitConfig(c, env.parseFloat, env.jobs);
      if r.Success? {
        restarts := restarts + [r.value];
      }
    }

    /** `handleSubmit`: nothing happens unless the overrides are consistent.
        Then an empty seed is replaced by four random digits, the form is
        committed, and the dirty and imported marks are cleared (also when
        the commit itself is refused). */
    method HandleSubmit() returns (check: Outcome<ConsistencyError>)
      modifies this`randomSeed, this`dirty, this`imported, this`importedFields, this`restarts
      ensures check == CheckOverrides(old(initialResourceOverrides))
      ensures check.Fail? ==> unchanged(this)
      ensures check.Pass? ==>
        && (old(randomSeed) != "" ==> randomSeed == old(randomSeed))
        && (old(randomSeed) == "" ==> |randomSeed| == 4 && forall i :: 0 <= i < 4 ==> IsDigit(randomSeed[i]))
        && job == old(job) && stats == old(stats) && procMode == old(procMode)
        && initialResourceOverrides == old(initialResourceOverrides)
        && !dirty && !imported && importedFields == []
        && (var c := CommitConfig(Fields(randomSeed), env.parseFloat, env.jobs);
            restarts == old(restarts) + (if c.Success? then [c.value] else []))
    {
      check := OverridesAreValid(initialResourceOverrides);
      if check.Pass? {
        var seed := randomSeed;
        if |seed| == 0 {
          seed := GenerateSeed();
          randomSeed := seed;
        }
        var _ := SetConfigAndRestart(Fields(seed));
        dirty := false;
        imported := false;
        importedFields := [];
      }
    }
  }

  /** Deleting removes only the first override of the given type, keeps the
      others in order, and leaves the list as it was when there is none. */
  lemma DeleteRemovesOnlyFirst(ovs: seq<ResourceOverride>, t: Key)
    ensures t !in Types(ovs) ==> RemoveFirst(ovs, OfType(t)) == ovs
    ensures t in Types(ovs) ==>
      var i := FirstIndex(ovs, OfType(t));
      && 0 <= i < |ovs| && ovs[i].rscType == t
      && (forall j :: 0 <= j < i ==> ovs[j].rscType != t)
      && RemoveFirst(ovs, OfType(t)) == ovs[..i] + ovs[i + 1..]
      && Count(RemoveFirst(ovs, OfType(t)), OfType(t)) + 1 == Count(ovs, OfType(t))
  {
    var p := OfType(t);
    var i := FirstIndex(ovs, p);
    RemoveFirstCounts(ovs, p);
    if t in Types(ovs) {
      var o :| o in ovs && o.rscType == t;
      var k :| 0 <= k < |ovs| && ovs[k] == o;
      assert p(ovs[k]);
      assert i >= 0;
      assert forall j :: 0 <= j < i ==> !p(ovs[j]);
    } else {
      forall j | 0 <= j < |ovs| ensures !p(ovs[j]) {
        assert ovs[j] in ovs;
      }
      assert i == -1;
    }
  }
}
