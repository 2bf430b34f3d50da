/** The cross-resource consistency check run before a configuration with
    initial resource overrides is committed (`Config.#resourceOverridesAreValid`). */
module OverrideCheck {
  import opened Wrappers
  import opened Resources

  datatype ConsistencyError =
    | AstralAndUmbral          // both ASTRAL_FIRE and UMBRAL_ICE have stacks
    | HeartWithoutStance       // UMBRAL_HEART stacks without AF or UI
    | PolyglotWithoutEnochian  // a polyglot timer without the implied enochian

  /** Reference reading of the override list: the entry of type `k` nearest
      the end of the list, so that a later entry supersedes an earlier one. */
  function LastOf(ovs: seq<ResourceOverride>, k: Key): (r: Option<ResourceOverride>)
    ensures r.None? <==> k !in Types(ovs)
    ensures r.Some? ==> r.value in ovs && r.value.rscType == k
  {
    if ovs == [] then None
    else if ovs[|ovs| - 1].rscType == k then Some(ovs[|ovs| - 1])
    else
      assert ovs == ovs[..|ovs| - 1] + [ovs[|ovs| - 1]];
      LastOf(ovs[..|ovs| - 1], k)
  }

  /** Stacks of the latest override of type `k`; an absent override counts as 0. */
  function StacksOf(ovs: seq<ResourceOverride>, k: Key): int
  {
    match LastOf(ovs, k)
    case Some(o) => o.stacks
    case None => 0
  }

  /** The check, stated on the latest entry of each type. */
  function CheckOverrides(ovs: seq<ResourceOverride>): Outcome<ConsistencyError>
  {
    var af := LastOf(ovs, ASTRAL_FIRE);
    var ui := LastOf(ovs, UMBRAL_ICE);
    if af.Some? && ui.Some? && af.value.stacks > 0 && ui.value.stacks > 0 then
      Fail(AstralAndUmbral)
    else
      var a, u, h := StacksOf(ovs, ASTRAL_FIRE), StacksOf(ovs, UMBRAL_ICE), StacksOf(ovs, UMBRAL_HEART);
      if h > 0 && a == 0 && u == 0 then
        Fail(HeartWithoutStance)
      else
        var hasEnochian := a > 0 || u > 0 || h > 0;
        var poly := LastOf(ovs, POLYGLOT);
        if poly.Some? && poly.value.timeTillFullOrDrop > 0.0 && !hasEnochian then
          Fail(PolyglotWithoutEnochian)
        else
          Pass
  }

  /** The map the source fills with `forEach(ov => M.set(ov.type, ov))`. */
  function IndexByType(ovs: seq<ResourceOverride>): map<Key, ResourceOverride>
  {
    if ovs == [] then map[]
    else IndexByType(ovs[..|ovs| - 1])[ovs[|ovs| - 1].rscType := ovs[|ovs| - 1]]
  }

  /** Filling the map entry by entry leaves, under each type, the latest
      entry of that type, and no other keys. */
  lemma {:induction false} IndexByTypeIsLatest(ovs: seq<ResourceOverride>, k: Key)
    ensures k in IndexByType(ovs) <==> LastOf(ovs, k).Some?
    ensures k in IndexByType(ovs) ==> IndexByType(ovs)[k] == LastOf(ovs, k).value
  {
    if ovs != [] {
      IndexByTypeIsLatest(ovs[..|ovs| - 1], k);
    }
  }

  /** The later of two entries of the same type is the one that counts. */
  lemma LaterEntryWins(ovs: seq<ResourceOverride>, o: ResourceOverride)
    ensures LastOf(ovs + [o], o.rscType) == Some(o)
    ensures forall k :: k != o.rscType ==> LastOf(ovs + [o], k) == LastOf(ovs, k)
  {
    assert (ovs + [o])[..|ovs|] == ovs;
  }

  /** `LastOf` returns the entry at the largest index carrying that type. */
  lemma {:induction false} LastOfIsLastIndex(ovs: seq<ResourceOverride>, k: Key, i: nat)
    requires i < |ovs| && ovs[i].rscType == k
    requires forall j :: i < j < |ovs| ==> ovs[j].rscType != k
    ensures LastOf(ovs, k) == Some(ovs[i])
  {
    if i < |ovs| - 1 {
      LastOfIsLastIndex(ovs[..|ovs| - 1], k, i);
    }
  }

  /** `#resourceOverridesAreValid`: builds the map of latest entries, then
      branches; a `false` with an alert becomes a `Fail` naming the rule. */
  method OverridesAreValid(ovs: seq<ResourceOverride>) returns (r: Outcome<ConsistencyError>)
    ensures r == CheckOverrides(ovs)
  {
    var m: map<Key, ResourceOverride> := map[];
    var i := 0;
    while i < |ovs|
      invariant 0 <= i <= |ovs|
      invariant m == IndexByType(ovs[..i])
    {
      assert ovs[..i + 1][..i] == ovs[..i];
      m := m[ovs[i].rscType := ovs[i]];
      i := i + 1;
    }
    assert ovs[..i] == ovs;
    IndexByTypeIsLatest(ovs, ASTRAL_FIRE);
    IndexByTypeIsLatest(ovs, UMBRAL_ICE);
    IndexByTypeIsLatest(ovs, UMBRAL_HEART);
    IndexByTypeIsLatest(ovs, POLYGLOT);

    if ASTRAL_FIRE in m && UMBRAL_ICE in m {
      var af := m[ASTRAL_FIRE].stacks;
      var ui := m[UMBRAL_ICE].stacks;
      if af > 0 && ui > 0 {
        return Fail(AstralAndUmbral);
      }
    }
    var af, ui, uh := 0, 0, 0;
    if ASTRAL_FIRE in m { af := m[ASTRAL_FIRE].stacks; }
    if UMBRAL_ICE in m { ui := m[UMBRAL_ICE].stacks; }
    if UMBRAL_HEART in m { uh := m[UMBRAL_HEART].stacks; }
    if uh > 0 {
      if af == 0 && ui == 0 {
        return Fail(HeartWithoutStance);
      }
    }
    var hasEnochian := false;
    if af > 0 || ui > 0 || uh > 0 {
      hasEnochian := true;
    }
    if POLYGLOT in m {
      var polyTimer := m[POLYGLOT].timeTillFullOrDrop;
      if polyTimer > 0.0 && !hasEnochian {
        return Fail(PolyglotWithoutEnochian);
      }
    }
    return Pass;
  }

  /** Astral fire and umbral ice are mutually exclusive: both positive is
      always rejected, whatever else the list holds. */
  lemma AstralUmbralExclusive(ovs: seq<ResourceOverride>)
    ensures StacksOf(ovs, ASTRAL_FIRE) > 0 && StacksOf(ovs, UMBRAL_ICE) > 0
      <==> CheckOverrides(ovs) == Fail(AstralAndUmbral)
  {
  }

  /** Umbral hearts require astral fire or umbral ice. */
  lemma HeartNeedsStance(ovs: seq<ResourceOverride>)
    requires StacksOf(ovs, UMBRAL_HEART) > 0
    requires StacksOf(ovs, ASTRAL_FIRE) == 0 && StacksOf(ovs, UMBRAL_ICE) == 0
    ensures CheckOverrides(ovs) == Fail(HeartWithoutStance)
  {
  }

  /** Both directions: the list passes exactly when none of the three rules
      is broken by the latest entries. */
  lemma CheckPassesIff(ovs: seq<ResourceOverride>)
    ensures CheckOverrides(ovs).Pass? <==>
      var a, u, h := StacksOf(ovs, ASTRAL_FIRE), StacksOf(ovs, UMBRAL_ICE), StacksOf(ovs, UMBRAL_HEART);
      && !(a > 0 && u > 0)
      && !(h > 0 && a == 0 && u == 0)
      && !(LastOf(ovs, POLYGLOT).Some? && LastOf(ovs, POLYGLOT).value.timeTillFullOrDrop > 0.0
           && !(a > 0 || u > 0 || h > 0))
  {
  }

  /** Without any of the four gated resources the check always passes. */
  lemma UngatedListsPass(ovs: seq<ResourceOverride>)
    requires forall o :: o in ovs ==> o.rscType !in {ASTRAL_FIRE, UMBRAL_ICE, UMBRAL_HEART, POLYGLOT}
    ensures CheckOverrides(ovs) == Pass
  {
  }
}
