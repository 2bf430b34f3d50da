/** The "add override" form of the configuration panel: validating one
    override from the form's inputs (`Config.#addResourceOverride`), the
    resource it pre-selects next (`#getFirstAddable`) and the order of the
    resource drop-down (`#addResourceOverrideNode`). */
module OverrideEditor {
  import opened Wrappers
  import opened Sequences
  import opened Resources

  /** What `#getFirstAddable` returns when every key already has an override. */
  const NO_ADDABLE: Key := "aba aba"

  datatype AddError =
    | InputsNotNumbers             // "some inputs are not numbers!"
    | TimerOutOfRange(maxTimer: real)    // "invalid input timeout (must be in range [0, max])"
    | AmountOutOfRange(maxAmount: int)   // "invalid input amount (must be in range [0, max])"
    | UnknownResource              // the selection is not a resource of the job (a TypeError in the source)

  /** A resource shows an amount field when it has more than one stack or
      when its single stack is set by default. */
  predicate HasAmount(info: ResourceInfo)
  {
    info.maxValue > 1 || info.maxValue == info.defaultValue
  }

  /** The timer the form yields: the parsed text, except that an empty
      polyglot timer means 0. */
  function EffectiveTimer(rscType: Key, timerText: string, timerNum: Option<real>): (t: Option<real>)
    ensures rscType == POLYGLOT && timerText == "" ==> t == Some(0.0)
    ensures !(rscType == POLYGLOT && timerText == "") ==> t == timerNum
  {
    if rscType == POLYGLOT && timerText == "" then Some(0.0) else timerNum
  }

  /** Validate the form's inputs for resource `rscType` and build the
      override record. `timerNum` and `stacksNum` are what `parseFloat` and
      `parseInt` read from the timer and amount fields (None for NaN). */
  function NewOverride(table: ResourceTable, rscType: Key, timerText: string,
                       timerNum: Option<real>, stacksNum: Option<int>, enabled: bool)
    : (r: Result<ResourceOverride, AddError>)
    // non-numeric input is refused first, whatever the resource
    ensures EffectiveTimer(rscType, timerText, timerNum).None? || stacksNum.None?
      ==> r == Failure(InputsNotNumbers)
    ensures r.Success? ==> r.value.rscType == rscType && table.Get(rscType).Some?
    ensures r.Success? ==> EffectiveTimer(rscType, timerText, timerNum).Some? && stacksNum.Some?
    // cooldowns: timer within [0, maxStacks * cdPerStack], one stack unless it has charges
    ensures r.Success? && table.Get(rscType).value.isCoolDown ==>
      var info := table.Get(rscType).value;
      && 0.0 <= r.value.timeTillFullOrDrop <= info.maxStacks as real * info.cdPerStack
      && r.value.timeTillFullOrDrop == EffectiveTimer(rscType, timerText, timerNum).value
      && r.value.stacks == (if info.maxStacks > 1 then stacksNum.value else 1)
      && r.value.effectOrTimerEnabled
    // other resources: amount and timer within range where they apply
    ensures r.Success? && !table.Get(rscType).value.isCoolDown ==>
      var info := table.Get(rscType).value;
      && (HasAmount(info) && rscType != PARADOX ==> 0 <= r.value.stacks <= info.maxValue)
      && r.value.stacks == (if HasAmount(info) then stacksNum.value else 1)
      && (info.maxTimeout >= 0.0 ==>
            0.0 <= r.value.timeTillFullOrDrop <= info.maxTimeout
            && r.value.timeTillFullOrDrop == EffectiveTimer(rscType, timerText, timerNum).value)
      && (info.maxTimeout < 0.0 ==> r.value.timeTillFullOrDrop == -1.0)
      && r.value.effectOrTimerEnabled == (if rscType == LEY_LINES then enabled else true)
  {
    var timer := EffectiveTimer(rscType, timerText, timerNum);
    if stacksNum.None? || timer.None? then Failure(InputsNotNumbers)
    else
      var t, stacks := timer.value, stacksNum.value;
      match table.Get(rscType)
      case None => Failure(UnknownResource)
      case Some(info) =>
        if info.isCoolDown then
          var maxTimer := info.maxStacks as real * info.cdPerStack;
          if t < 0.0 || t > maxTimer then Failure(TimerOutOfRange(maxTimer))
          else Success(ResourceOverride(rscType, t, if info.maxStacks > 1 then stacks else 1, true))
        else if HasAmount(info) && rscType != PARADOX && (stacks < 0 || stacks > info.maxValue) then
          Failure(AmountOutOfRange(info.maxValue))
        else if info.maxTimeout >= 0.0 && (t < 0.0 || t > info.maxTimeout) then
          Failure(TimerOutOfRange(info.maxTimeout))
        else
          Success(ResourceOverride(
            rscType,
            if info.maxTimeout >= 0.0 then t else -1.0,
            if HasAmount(info) then stacks else 1,
            if rscType == LEY_LINES then enabled else true))
  }

  /** The converse of the range checks: numeric inputs within every range
      that applies to the resource are always accepted. */
  lemma InRangeInputsAccepted(table: ResourceTable, rscType: Key, timerText: string,
                              timerNum: Option<real>, stacksNum: Option<int>, enabled: bool)
    requires table.Get(rscType).Some?
    requires EffectiveTimer(rscType, timerText, timerNum).Some? && stacksNum.Some?
    requires
      var info, t, n := table.Get(rscType).value, EffectiveTimer(rscType, timerText, timerNum).value, stacksNum.value;
      if info.isCoolDown then 0.0 <= t <= info.maxStacks as real * info.cdPerStack
      else
        && (HasAmount(info) && rscType != PARADOX ==> 0 <= n <= info.maxValue)
        && (info.maxTimeout >= 0.0 ==> 0.0 <= t <= info.maxTimeout)
    ensures NewOverride(table, rscType, timerText, timerNum, stacksNum, enabled).Success?
  {
  }

  /** Holds for the keys that have no override in `ovs` yet. */
  function Untaken(ovs: seq<ResourceOverride>): Key -> bool
  {
    (k: Key) => k !in Types(ovs)
  }

  /** The resource types that already have an override. */
  method TakenTypes(ovs: seq<ResourceOverride>) returns (taken: set<Key>)
    ensures taken == Types(ovs)
  {
    taken := {};
    var n := 0;
    while n < |ovs|
      invariant 0 <= n <= |ovs|
      invariant taken == Types(ovs[..n])
    {
      assert ovs[..n + 1] == ovs[..n] + [ovs[n]];
      taken := taken + {ovs[n].rscType};
      n := n + 1;
    }
    assert ovs[..n] == ovs;
  }

  /** The table's entries without an override yet, in table order. */
  method Addable(entries: seq<ResourceEntry>, ovs: seq<ResourceOverride>, taken: set<Key>)
    returns (options: seq<OptionEntry>)
    requires taken == Types(ovs)
    ensures options == AddableEntries(entries, ovs)
  {
    options := [];
    var i := 0;
    while i < |entries|
      invariant 0 <= i <= |entries|
      invariant AddableEntries(entries, ovs) == options + AddableEntries(entries[i..], ovs)
    {
      var e := entries[i];
      AddableStep(entries, i, ovs);
      ghost var rest := AddableEntries(entries[i + 1..], ovs);
      if e.key !in taken {
        var o := OptionEntry(e.key, if e.info.isCoolDown then 1 else 0);
        assert options + ([o] + rest) == (options + [o]) + rest;
        options := options + [o];
      } else {
        assert AddableAt(e, ovs) == [];
      }
      i := i + 1;
    }
    assert entries[i..] == [];
  }

  /** One step of `AddableEntries` from position `i`. */
  lemma AddableStep(entries: seq<ResourceEntry>, i: nat, ovs: seq<ResourceOverride>)
    requires i < |entries|
    ensures AddableEntries(entries[i..], ovs) == AddableAt(entries[i], ovs) + AddableEntries(entries[i + 1..], ovs)
  {
    assert entries[i..][0] == entries[i];
    assert entries[i..][1..] == entries[i + 1..];
  }

  /** `#getFirstAddable`: the first key of the job's table that has no
      override yet, or the placeholder when every key is taken. */
  method FirstAddable(keys: seq<Key>, ovs: seq<ResourceOverride>) returns (r: Key)
    ensures var i := FirstIndex(keys, Untaken(ovs));
      r == if i < 0 then NO_ADDABLE else keys[i]
  {
    var taken := TakenTypes(ovs);
    r := NO_ADDABLE;
    var i := 0;
    while i < |keys|
      invariant 0 <= i <= |keys|
      invariant forall j :: 0 <= j < i ==> keys[j] in taken
      invariant r == NO_ADDABLE
    {
      if keys[i] !in taken {
        r := keys[i];
        break;
      }
      i := i + 1;
    }
    ghost var first := FirstIndex(keys, Untaken(ovs));
    assert first < 0 ==> i == |keys|;
  }

  /** One entry of the resource drop-down. */
  datatype OptionEntry = OptionEntry(rsc: Key, isCoolDown: int)

  /** The drop-down entry of one table row: none when the key already has an override. */
  function AddableAt(e: ResourceEntry, ovs: seq<ResourceOverride>): seq<OptionEntry>
  {
    if e.key in Types(ovs) then [] else [OptionEntry(e.key, if e.info.isCoolDown then 1 else 0)]
  }

  /** Entries for the keys of the table that have no override yet, in table order. */
  function AddableEntries(entries: seq<ResourceEntry>, ovs: seq<ResourceOverride>): seq<OptionEntry>
  {
    if entries == [] then [] else AddableAt(entries[0], ovs) + AddableEntries(entries[1..], ovs)
  }

  /** Only keys without an override are offered, every one of them is, and
      the cooldown flag is 0 or 1. */
  lemma {:induction false} AddableEntriesSpec(entries: seq<ResourceEntry>, ovs: seq<ResourceOverride>)
    ensures var r := AddableEntries(entries, ovs);
      && (forall e :: e in r ==> e.rsc !in Types(ovs) && 0 <= e.isCoolDown <= 1)
      && (forall i :: 0 <= i < |entries| && entries[i].key !in Types(ovs) ==>
            OptionEntry(entries[i].key, if entries[i].info.isCoolDown then 1 else 0) in r)
  {
    if entries != [] {
      AddableEntriesSpec(entries[1..], ovs);
      assert forall i :: 1 <= i < |entries| ==> entries[i] == entries[1..][i - 1];
    }
  }

  /** Insert `x` after every entry whose cooldown flag is at most its own:
      one step of a stable sort on `isCoolDown`. */
  function InsertStable(x: OptionEntry, s: seq<OptionEntry>): (r: seq<OptionEntry>)
  {
    if s == [] then [x]
    else if s[|s| - 1].isCoolDown <= x.isCoolDown then s + [x]
    else InsertStable(x, s[..|s| - 1]) + [s[|s| - 1]]
  }

  /** `optionEntries.sort((a, b) => a.isCoolDown - b.isCoolDown)`: the
      array sort is stable, modelled as a stable insertion sort. */
  function SortByCooldown(s: seq<OptionEntry>): (r: seq<OptionEntry>)
  {
    if s == [] then []
    else InsertStable(s[|s| - 1], SortByCooldown(s[..|s| - 1]))
  }

  predicate IsCoolDownEntry(e: OptionEntry) { e.isCoolDown == 1 }
  predicate IsResourceEntry(e: OptionEntry) { e.isCoolDown != 1 }

  /** Inserting into a list already split into resources then cooldowns
      keeps it split, the new entry going last in its own group. */
  lemma {:induction false} InsertStableSplit(x: OptionEntry, a: seq<OptionEntry>, b: seq<OptionEntry>)
    requires 0 <= x.isCoolDown <= 1
    requires forall i :: 0 <= i < |a| ==> a[i].isCoolDown == 0
    requires forall i :: 0 <= i < |b| ==> b[i].isCoolDown == 1
    ensures InsertStable(x, a + b) ==
      if x.isCoolDown == 1 then a + b + [x] else a + [x] + b
    decreases |b|
  {
    if b == [] {
      assert a + b == a;
      InsertAfterResources(x, a);
    } else {
      var last, b' := b[|b| - 1], b[..|b| - 1];
      DropLastConcat(a, b);
      assert last.isCoolDown == 1;
      if x.isCoolDown == 0 {
        AllCooldownPrefix(b, b');
        InsertStableSplit(x, a, b');
        assert InsertStable(x, a + b) == (a + [x] + b') + [last];
        assert (a + [x] + b') + [last] == a + [x] + (b' + [last]);
      }
    }
  }

  /** Behind non-cooldown entries only, a new entry goes last. */
  lemma InsertAfterResources(x: OptionEntry, a: seq<OptionEntry>)
    requires 0 <= x.isCoolDown
    requires forall i :: 0 <= i < |a| ==> a[i].isCoolDown == 0
    ensures InsertStable(x, a) == a + [x]
  {
    if a != [] {
      assert a[|a| - 1].isCoolDown == 0;
    }
  }

  lemma AllCooldownPrefix(b: seq<OptionEntry>, b': seq<OptionEntry>)
    requires b != [] && b' == b[..|b| - 1]
    requires forall i :: 0 <= i < |b| ==> b[i].isCoolDown == 1
    ensures forall i :: 0 <= i < |b'| ==> b'[i].isCoolDown == 1
  {
    forall i | 0 <= i < |b'| ensures b'[i].isCoolDown == 1 {
      assert b'[i] == b[i];
    }
  }

  /** The stable sort on a 0/1 key is the partition: every non-cooldown
      entry, in input order, then every cooldown entry, in input order. */
  lemma {:induction false} SortByCooldownIsPartition(s: seq<OptionEntry>)
    requires forall i :: 0 <= i < |s| ==> 0 <= s[i].isCoolDown <= 1
    ensures SortByCooldown(s) == Filter(s, IsResourceEntry) + Filter(s, IsCoolDownEntry)
  {
    if s != [] {
      var init, x := s[..|s| - 1], s[|s| - 1];
      assert s == init + [x];
      forall i | 0 <= i < |init| ensures 0 <= init[i].isCoolDown <= 1 {
        assert init[i] == s[i];
      }
      SortByCooldownIsPartition(init);
      FiltersSplit(init);
      InsertStableSplit(x, Filter(init, IsResourceEntry), Filter(init, IsCoolDownEntry));
      PartitionSnoc(init, x);
    }
  }

  /** Appending one entry to the input of the partition puts it last in
      its own group. */
  lemma PartitionSnoc(init: seq<OptionEntry>, x: OptionEntry)
    ensures var a, b := Filter(init, IsResourceEntry), Filter(init, IsCoolDownEntry);
            Filter(init + [x], IsResourceEntry) + Filter(init + [x], IsCoolDownEntry)
            == if x.isCoolDown == 1 then a + b + [x] else a + [x] + b
  {
    FilterSnoc(init, x, IsResourceEntry);
    FilterSnoc(init, x, IsCoolDownEntry);
    var a, b := Filter(init, IsResourceEntry), Filter(init, IsCoolDownEntry);
    if x.isCoolDown == 1 {
      assert a + (b + [x]) == a + b + [x];
    }
  }

  lemma FiltersSplit(s: seq<OptionEntry>)
    requires forall i :: 0 <= i < |s| ==> 0 <= s[i].isCoolDown <= 1
    ensures var a := Filter(s, IsResourceEntry); forall i :: 0 <= i < |a| ==> a[i].isCoolDown == 0
    ensures var b := Filter(s, IsCoolDownEntry); forall i :: 0 <= i < |b| ==> b[i].isCoolDown == 1
  {
    var a, b := Filter(s, IsResourceEntry), Filter(s, IsCoolDownEntry);
    FilterMember(s, IsResourceEntry);
    FilterMember(s, IsCoolDownEntry);
    forall i | 0 <= i < |a| ensures a[i].isCoolDown == 0 {
      assert a[i] in a;
      assert a[i] in s;
    }
    forall i | 0 <= i < |b| ensures b[i].isCoolDown == 1 {
      assert b[i] in b;
    }
  }

  /** The partition holds every entry once and puts every non-cooldown entry
      before every cooldown entry. */
  lemma PartitionOrdered(s: seq<OptionEntry>)
    requires forall i :: 0 <= i < |s| ==> 0 <= s[i].isCoolDown <= 1
    ensures var p := Filter(s, IsResourceEntry) + Filter(s, IsCoolDownEntry);
      forall i, j :: 0 <= i < j < |p| ==> p[i].isCoolDown <= p[j].isCoolDown
  {
    var a, b := Filter(s, IsResourceEntry), Filter(s, IsCoolDownEntry);
    FilterMember(s, IsResourceEntry);
    FilterMember(s, IsCoolDownEntry);
    var p := a + b;
    forall i, j | 0 <= i < j < |p| ensures p[i].isCoolDown <= p[j].isCoolDown {
      if i < |a| { assert p[i] in a; } else { assert p[i] in b; }
      if j < |a| { assert p[j] in a; } else { assert p[j] in b; }
    }
  }

  lemma {:induction false} PartitionMultiset(s: seq<OptionEntry>)
    ensures multiset(Filter(s, IsResourceEntry) + Filter(s, IsCoolDownEntry)) == multiset(s)
  {
    if s != [] {
      var init, x := s[..|s| - 1], s[|s| - 1];
      assert s == init + [x];
      PartitionMultiset(init);
      FilterSnoc(init, x, IsResourceEntry);
      FilterSnoc(init, x, IsCoolDownEntry);
    }
  }

  /** The drop-down lists every addable resource once, non-cooldowns first,
      each group in table order. */
  method ResourceOptions(table: ResourceTable, ovs: seq<ResourceOverride>) returns (options: seq<OptionEntry>)
    ensures options == Filter(AddableEntries(table.entries, ovs), IsResourceEntry)
                     + Filter(AddableEntries(table.entries, ovs), IsCoolDownEntry)
    ensures multiset(options) == multiset(AddableEntries(table.entries, ovs))
    ensures forall i, j :: 0 <= i < j < |options| ==> options[i].isCoolDown <= options[j].isCoolDown
  {
    var taken := TakenTypes(ovs);
    var entries := Addable(table.entries, ovs, taken);
    AddableEntriesSpec(table.entries, ovs);
    assert forall k :: 0 <= k < |entries| ==> entries[k] in entries;
    SortByCooldownIsPartition(entries);
    PartitionOrdered(entries);
    PartitionMultiset(entries);
    options := SortByCooldown(entries);
  }
}
