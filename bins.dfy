/** Grouping of timeline elements into a JavaScript `Map` from key to array
    (`trackBins` of `drawMarkerTracks`, `elemBins` of `drawTimelines`): the
    map iterates its keys in order of first insertion, and each array keeps
    its elements in input order. */
module Bins {
  import opened Sequences

  datatype Bin<K, E> = Bin(key: K, elems: seq<E>)

  /** Holds for the elements whose key is `k`. */
  function HasKey<K(==), E>(key: E -> K, k: K): E -> bool
  {
    (e: E) => key(e) == k
  }

  /** Holds for the bin of key `k`. */
  function IsBinOf<K(==), E>(k: K): Bin<K, E> -> bool
  {
    (b: Bin<K, E>) => b.key == k
  }

  /** `map.get(k) ?? []`, push, `map.set(k, arr)`. */
  function AddTo<K(==), E>(bins: seq<Bin<K, E>>, k: K, e: E): seq<Bin<K, E>>
  {
    var j := FirstIndex(bins, IsBinOf(k));
    if j < 0 then bins + [Bin(k, [e])] else bins[j := Bin(k, bins[j].elems + [e])]
  }

  /** `map.get(k) ?? []`: the elements of the bin of key `k`, or none when
      there is no such bin. */
  function ElemsOf<K(==), E>(bins: seq<Bin<K, E>>, k: K): seq<E>
  {
    var j := FirstIndex(bins, IsBinOf(k));
    if j < 0 then [] else bins[j].elems
  }

  /** The bins after inserting every element of `xs` in order. */
  function Binned<K(==), E>(xs: seq<E>, key: E -> K): seq<Bin<K, E>>
  {
    if xs == [] then [] else AddTo(Binned(xs[..|xs| - 1], key), key(xs[|xs| - 1]), xs[|xs| - 1])
  }

  /** The binning loop of the drawing code. */
  method BinBy<K(==), E>(xs: seq<E>, key: E -> K) returns (bins: seq<Bin<K, E>>)
    ensures bins == Binned(xs, key)
  {
    bins := [];
    var i := 0;
    while i < |xs|
      invariant 0 <= i <= |xs|
      invariant bins == Binned(xs[..i], key)
    {
      assert xs[..i + 1][..i] == xs[..i];
      var k := key(xs[i]);
      var j := FirstIndex(bins, IsBinOf(k));
      if j < 0 {
        bins := bins + [Bin(k, [xs[i]])];
      } else {
        bins := bins[j := Bin(k, bins[j].elems + [xs[i]])];
      }
      i := i + 1;
    }
    assert xs[..i] == xs;
  }

  ghost predicate DistinctKeys<K, E>(bins: seq<Bin<K, E>>)
  {
    forall i, j :: 0 <= i < j < |bins| ==> bins[i].key != bins[j].key
  }

  ghost predicate NoEmptyBin<K, E>(bins: seq<Bin<K, E>>)
  {
    forall i :: 0 <= i < |bins| ==> bins[i].elems != []
  }

  ghost predicate Covers<K, E>(xs: seq<E>, key: E -> K, bins: seq<Bin<K, E>>)
  {
    forall x :: x in xs ==> exists i :: 0 <= i < |bins| && bins[i].key == key(x)
  }

  ghost predicate Exact<K, E>(xs: seq<E>, key: E -> K, bins: seq<Bin<K, E>>)
  {
    forall i :: 0 <= i < |bins| ==> bins[i].elems == Filter(xs, HasKey(key, bins[i].key))
  }

  ghost predicate FirstSeenOrder<K, E>(xs: seq<E>, key: E -> K, bins: seq<Bin<K, E>>)
  {
    forall i, j :: 0 <= i < j < |bins| ==>
      0 <= FirstIndex(xs, HasKey(key, bins[i].key)) < FirstIndex(xs, HasKey(key, bins[j].key))
  }

  /** The bins are a grouping of `xs` by key: one bin per key present, no
      empty bin, keys in order of first appearance, and each bin holding
      exactly the elements of its key in input order. */
  lemma {:induction false} BinnedSpec<K, E>(xs: seq<E>, key: E -> K)
    ensures var bins := Binned(xs, key);
      && |bins| <= |xs|
      && DistinctKeys(bins) && NoEmptyBin(bins) && Covers(xs, key, bins)
      && Exact(xs, key, bins) && FirstSeenOrder(xs, key, bins)
  {
    if xs != [] {
      var init := xs[..|xs| - 1];
      var x := xs[|xs| - 1];
      assert xs == init + [x];
      BinnedSpec(init, key);
      var b0 := Binned(init, key);
      StepShape(b0, key(x), x);
      StepCovers(init, x, key, b0);
      StepExact(init, x, key, b0);
      StepOrder(init, x, key, b0);
    }
  }

  /** Which bins `AddTo` keeps, extends or adds. */
  lemma StepShape<K, E>(b0: seq<Bin<K, E>>, k: K, e: E)
    requires DistinctKeys(b0) && NoEmptyBin(b0)
    ensures var b := AddTo(b0, k, e);
      && DistinctKeys(b) && NoEmptyBin(b)
      && |b0| <= |b| <= |b0| + 1
      && (forall i :: 0 <= i < |b0| ==> b[i].key == b0[i].key)
      && (exists i :: 0 <= i < |b| && b[i].key == k)
      && (|b| == |b0| + 1 <==> forall i :: 0 <= i < |b0| ==> b0[i].key != k)
      && (|b| == |b0| + 1 ==> b[|b0|] == Bin(k, [e]))
  {
    var j := FirstIndex(b0, IsBinOf(k));
    if j >= 0 {
      assert IsBinOf(k)(b0[j]);
    } else {
      forall i | 0 <= i < |b0| ensures b0[i].key != k {
        assert !IsBinOf(k)(b0[i]);
      }
      assert AddTo(b0, k, e)[|b0|].key == k;
    }
  }

  lemma StepCovers<K, E>(init: seq<E>, x: E, key: E -> K, b0: seq<Bin<K, E>>)
    requires DistinctKeys(b0) && NoEmptyBin(b0) && Covers(init, key, b0)
    ensures Covers(init + [x], key, AddTo(b0, key(x), x))
  {
    StepShape(b0, key(x), x);
    var b := AddTo(b0, key(x), x);
    forall y | y in init + [x] ensures exists i :: 0 <= i < |b| && b[i].key == key(y) {
      if y in init {
        var i :| 0 <= i < |b0| && b0[i].key == key(y);
        assert b[i].key == key(y);
      }
    }
  }

  lemma StepExact<K, E>(init: seq<E>, x: E, key: E -> K, b0: seq<Bin<K, E>>)
    requires DistinctKeys(b0) && NoEmptyBin(b0) && Covers(init, key, b0) && Exact(init, key, b0)
    ensures Exact(init + [x], key, AddTo(b0, key(x), x))
  {
    StepShape(b0, key(x), x);
    var b := AddTo(b0, key(x), x);
    var j := FirstIndex(b0, IsBinOf(key(x)));
    forall i | 0 <= i < |b| ensures b[i].elems == Filter(init + [x], HasKey(key, b[i].key)) {
      FilterSnoc(init, x, HasKey(key, b[i].key));
      if i == |b0| {
        FilterNone(init, HasKey(key, key(x)));
      }
    }
  }

  lemma StepOrder<K, E>(init: seq<E>, x: E, key: E -> K, b0: seq<Bin<K, E>>)
    requires DistinctKeys(b0) && NoEmptyBin(b0) && Covers(init, key, b0) && Exact(init, key, b0)
    requires FirstSeenOrder(init, key, b0)
    ensures FirstSeenOrder(init + [x], key, AddTo(b0, key(x), x))
  {
    StepShape(b0, key(x), x);
    var b := AddTo(b0, key(x), x);
    var xs := init + [x];
    forall i | 0 <= i < |b0|
      ensures FirstIndex(xs, HasKey(key, b0[i].key)) == FirstIndex(init, HasKey(key, b0[i].key)) >= 0
    {
      BinnedKeyOccurs(init, key, b0, i);
      FirstIndexSnoc(init, x, HasKey(key, b0[i].key));
    }
    if |b| == |b0| + 1 {
      FirstIndexSnoc(init, x, HasKey(key, key(x)));
      assert FirstIndex(xs, HasKey(key, key(x))) == |init|;
    }
    forall i, j | 0 <= i < j < |b|
      ensures 0 <= FirstIndex(xs, HasKey(key, b[i].key)) < FirstIndex(xs, HasKey(key, b[j].key))
    {
      assert b[i].key == b0[i].key;
      if j < |b0| {
        assert b[j].key == b0[j].key;
      }
    }
  }

  /** The key of a non-empty exact bin occurs in the input. */
  lemma BinnedKeyOccurs<K, E>(xs: seq<E>, key: E -> K, bins: seq<Bin<K, E>>, i: int)
    requires NoEmptyBin(bins) && Exact(xs, key, bins) && 0 <= i < |bins|
    ensures 0 <= FirstIndex(xs, HasKey(key, bins[i].key)) < |xs|
  {
    FilterMember(xs, HasKey(key, bins[i].key));
    var e := bins[i].elems[0];
    assert e in xs;
    var m :| 0 <= m < |xs| && xs[m] == e;
    assert HasKey(key, bins[i].key)(xs[m]);
  }

  /** Looking a key up in the bins of `xs` yields exactly the elements of
      `xs` with that key, in input order, and nothing when none has it. */
  lemma ElemsOfBinned<K, E>(xs: seq<E>, key: E -> K, k: K)
    ensures ElemsOf(Binned(xs, key), k) == Filter(xs, HasKey(key, k))
  {
    var bins := Binned(xs, key);
    BinnedSpec(xs, key);
    var j := FirstIndex(bins, IsBinOf(k));
    if j >= 0 {
      assert IsBinOf(k)(bins[j]);
    } else {
      forall x | x in xs
        ensures !HasKey(key, k)(x)
      {
        var i :| 0 <= i < |bins| && bins[i].key == key(x);
        assert !IsBinOf(k)(bins[i]);
      }
      FilterNone(xs, HasKey(key, k));
    }
  }
}
