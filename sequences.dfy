/** Sequence operations the UI code performs through the JavaScript array
    library: `indexOf`, a search loop with `break`, `splice(i, 1)` and
    filtering. */
module Sequences {

  /** Index of the first element satisfying `p`, or -1 when there is none
      (the contract of `Array.prototype.indexOf` and of a `for` loop that
      stops at its first match). */
  function FirstIndex<T>(s: seq<T>, p: T -> bool): (r: int)
    ensures -1 <= r < |s|
    ensures r >= 0 ==> p(s[r])
    ensures r >= 0 ==> forall j :: 0 <= j < r ==> !p(s[j])
    ensures r == -1 <==> forall j :: 0 <= j < |s| ==> !p(s[j])
  {
    if s == [] then -1
    else if p(s[0]) then 0
    else
      var k := FirstIndex(s[1..], p);
      if k < 0 then -1 else k + 1
  }

  /** `splice(i, 1)`: the sequence without its element at index `i`. */
  function RemoveAt<T>(s: seq<T>, i: nat): (r: seq<T>)
    requires i < |s|
    ensures |r| == |s| - 1
    ensures forall j :: 0 <= j < i ==> r[j] == s[j]
    ensures forall j :: i <= j < |r| ==> r[j] == s[j + 1]
  {
    s[..i] + s[i + 1..]
  }

  /** Remove the first element satisfying `p`; leave `s` as it is when no
      element does. */
  function RemoveFirst<T>(s: seq<T>, p: T -> bool): (r: seq<T>)
  {
    var i := FirstIndex(s, p);
    if i < 0 then s else RemoveAt(s, i)
  }

  /** The elements of `s` satisfying `p`, in their original order. */
  function Filter<T>(s: seq<T>, p: T -> bool): (r: seq<T>)
  {
    if s == [] then [] else (if p(s[0]) then [s[0]] else []) + Filter(s[1..], p)
  }

  /** Number of elements of `s` satisfying `p`. */
  function Count<T>(s: seq<T>, p: T -> bool): nat
  {
    if s == [] then 0 else (if p(s[0]) then 1 else 0) + Count(s[1..], p)
  }

  /** Filtering one more element at the end extends the filtered sequence by
      that element when it matches, and by nothing otherwise. */
  lemma {:induction false} FilterSnoc<T>(s: seq<T>, x: T, p: T -> bool)
    ensures Filter(s + [x], p) == Filter(s, p) + (if p(x) then [x] else [])
  {
    if s == [] {
      assert s + [x] == [x];
    } else {
      var head := if p(s[0]) then [s[0]] else [];
      var tail := if p(x) then [x] else [];
      assert (s + [x])[0] == s[0];
      assert (s + [x])[1..] == s[1..] + [x];
      FilterSnoc(s[1..], x, p);
      assert Filter(s + [x], p) == head + (Filter(s[1..], p) + tail);
      assert head + (Filter(s[1..], p) + tail) == (head + Filter(s[1..], p)) + tail;
    }
  }

  /** Every element kept by the filter comes from the input and satisfies `p`. */
  lemma {:induction false} FilterMember<T>(s: seq<T>, p: T -> bool)
    ensures forall x :: x in Filter(s, p) ==> x in s && p(x)
  {
    if s != [] {
      FilterMember(s[1..], p);
    }
  }

  lemma {:induction false} FilterNone<T>(s: seq<T>, p: T -> bool)
    requires forall x :: x in s ==> !p(x)
    ensures Filter(s, p) == []
  {
    if s != [] {
      FilterNone(s[1..], p);
    }
  }

  lemma {:induction false} CountAppend<T>(a: seq<T>, b: seq<T>, p: T -> bool)
    ensures Count(a + b, p) == Count(a, p) + Count(b, p)
  {
    if a != [] {
      assert (a + b)[1..] == a[1..] + b;
      CountAppend(a[1..], b, p);
    } else {
      assert a + b == b;
    }
  }

  /** Removing the first match takes exactly one matching element away and
      keeps every element that does not match; with no match nothing changes. */
  lemma RemoveFirstCounts<T>(s: seq<T>, p: T -> bool)
    ensures FirstIndex(s, p) >= 0 ==> Count(RemoveFirst(s, p), p) + 1 == Count(s, p)
    ensures FirstIndex(s, p) < 0 ==> RemoveFirst(s, p) == s && Count(s, p) == 0
    ensures Count(RemoveFirst(s, p), x => !p(x)) == Count(s, x => !p(x))
  {
    var i := FirstIndex(s, p);
    if i >= 0 {
      assert s == s[..i] + [s[i]] + s[i + 1..];
      CountAppend(s[..i] + [s[i]], s[i + 1..], p);
      CountAppend(s[..i], [s[i]], p);
      CountAppend(s[..i], s[i + 1..], p);
      CountAppend(s[..i] + [s[i]], s[i + 1..], x => !p(x));
      CountAppend(s[..i], [s[i]], x => !p(x));
      CountAppend(s[..i], s[i + 1..], x => !p(x));
      assert [s[i]][1..] == [];
    } else {
      CountNone(s, p);
    }
  }

  lemma {:induction false} CountNone<T>(s: seq<T>, p: T -> bool)
    requires forall j :: 0 <= j < |s| ==> !p(s[j])
    ensures Count(s, p) == 0
  {
    if s != [] {
      CountNone(s[1..], p);
    }
  }

  /** Appending an element moves no earlier match: the first match of the
      extended sequence is the old one, or the new element when there was none. */
  lemma {:induction false} FirstIndexSnoc<T>(s: seq<T>, x: T, p: T -> bool)
    ensures FirstIndex(s + [x], p) ==
      if FirstIndex(s, p) >= 0 then FirstIndex(s, p) else if p(x) then |s| else -1
  {
    if s != [] {
      assert (s + [x])[1..] == s[1..] + [x];
      FirstIndexSnoc(s[1..], x, p);
    }
  }

  /** A property of every element of a suffix from `k` on holds of the
      matching elements of the sequence the suffix was cut from. */
  lemma SuffixAll<T>(s: seq<T>, lo: nat, k: nat, p: T -> bool)
    requires lo <= |s| && k <= |s| - lo
    requires forall j :: k <= j < |s| - lo ==> p(s[lo..][j])
    ensures forall i :: lo + k <= i < |s| ==> p(s[i])
  {
    forall i | lo + k <= i < |s| ensures p(s[i]) {
      assert s[i] == s[lo..][i - lo];
    }
  }

  /** Dropping the last element of `a + b`, for a non-empty `b`, drops it from `b`. */
  lemma DropLastConcat<T>(a: seq<T>, b: seq<T>)
    requires b != []
    ensures (a + b)[|a + b| - 1] == b[|b| - 1]
    ensures (a + b)[..|a + b| - 1] == a + b[..|b| - 1]
    ensures b == b[..|b| - 1] + [b[|b| - 1]]
  {
  }
}
