/** The initial-resource-override data of the configuration form:
    the per-job resource table it is checked against and the override
    records it builds. */
module Resources {
  import opened Wrappers
  import opened Sequences

  /** A resource or cooldown identifier (`ResourceKey | CooldownKey`). */
  type Key = string

  const ASTRAL_FIRE: Key := "ASTRAL_FIRE"
  const UMBRAL_ICE: Key := "UMBRAL_ICE"
  const UMBRAL_HEART: Key := "UMBRAL_HEART"
  const POLYGLOT: Key := "POLYGLOT"
  const PARADOX: Key := "PARADOX"
  const LEY_LINES: Key := "LEY_LINES"

  /** What `getResourceInfo` reports about one resource of a job. A
      `maxTimeout` below zero means the resource has no timer. */
  datatype ResourceInfo = ResourceInfo(
    isCoolDown: bool,
    maxStacks: int,
    cdPerStack: real,
    maxValue: int,
    defaultValue: int,
    maxTimeout: real)

  datatype ResourceEntry = ResourceEntry(key: Key, info: ResourceInfo)

  /** `getAllResources(job)`: a map from key to info, iterated in insertion
      order, so an ordered sequence of entries. */
  datatype ResourceTable = ResourceTable(entries: seq<ResourceEntry>)
  {
    function Keys(): (ks: seq<Key>)
      ensures |ks| == |entries|
      ensures forall i :: 0 <= i < |ks| ==> ks[i] == entries[i].key
    {
      seq(|entries|, i requires 0 <= i < |entries| => entries[i].key)
    }

    /** `Map.get`: the info stored for `k`, if any. */
    function Get(k: Key): (r: Option<ResourceInfo>)
      ensures r.None? <==> forall i :: 0 <= i < |entries| ==> entries[i].key != k
      ensures r.Some? ==> exists i :: 0 <= i < |entries| && entries[i] == ResourceEntry(k, r.value)
    {
      var i := FirstIndex(entries, (e: ResourceEntry) => e.key == k);
      if i < 0 then None else Some(entries[i].info)
    }
  }

  /** `ResourceOverrideData`: a user-declared value of one resource at time 0. */
  datatype ResourceOverride = ResourceOverride(
    rscType: Key,
    timeTillFullOrDrop: real,
    stacks: int,
    effectOrTimerEnabled: bool)

  /** The types that already have an override. */
  function Types(ovs: seq<ResourceOverride>): set<Key>
  {
    set o | o in ovs :: o.rscType
  }
}
