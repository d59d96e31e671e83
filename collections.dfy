/** Sequence helpers shared by the repository and its queries: first-match lookup
    (what `Array.prototype.find` does) and order-preserving filtering
    (what `Array.prototype.filter` does). */
module Collections {

  datatype Option<+T> = None | Some(value: T)

  /** Index of the first element that satisfies `p`, or None when there is none. */
  function FirstIndex<T>(s: seq<T>, p: T -> bool): (r: Option<nat>)
    ensures r.Some? ==> r.value < |s| && p(s[r.value])
    ensures r.Some? ==> forall j :: 0 <= j < r.value ==> !p(s[j])
    ensures r.None? <==> forall j :: 0 <= j < |s| ==> !p(s[j])
  {
    if |s| == 0 then None
    else if p(s[0]) then Some(0)
    else
      match FirstIndex(s[1..], p)
      case None =>
        assert forall j :: 1 <= j < |s| ==> s[j] == s[1..][j - 1];
        None
      case Some(i) =>
        assert forall j :: 1 <= j < |s| ==> s[j] == s[1..][j - 1];
        Some(i + 1)
  }

  /** The first satisfying element is found wherever it sits. */
  lemma FirstIndexAt<T>(s: seq<T>, p: T -> bool, k: nat)
    requires k < |s| && p(s[k])
    requires forall j :: 0 <= j < k ==> !p(s[j])
    ensures FirstIndex(s, p) == Some(k)
  {
  }

  /** The elements of `s` that satisfy `p`, in their original order. */
  function Filter<T>(s: seq<T>, p: T -> bool): (r: seq<T>)
    ensures |r| <= |s|
    ensures forall i :: 0 <= i < |r| ==> p(r[i])
  {
    if s == [] then []
    else (if p(s[0]) then [s[0]] else []) + Filter(s[1..], p)
  }

  /** Filtering keeps every satisfying element with its multiplicity and drops all others. */
  lemma {:induction false} FilterCount<T>(s: seq<T>, p: T -> bool, x: T)
    ensures multiset(Filter(s, p))[x] == if p(x) then multiset(s)[x] else 0
  {
    if s != [] {
      FilterCount(s[1..], p, x);
      assert s == [s[0]] + s[1..];
      assert multiset(s) == multiset{s[0]} + multiset(s[1..]);
    }
  }

  lemma FilterCounts<T>(s: seq<T>, p: T -> bool)
    ensures forall x :: multiset(Filter(s, p))[x] == if p(x) then multiset(s)[x] else 0
  {
    forall x ensures multiset(Filter(s, p))[x] == if p(x) then multiset(s)[x] else 0 {
      FilterCount(s, p, x);
    }
  }

  lemma FilterMembership<T>(s: seq<T>, p: T -> bool, x: T)
    ensures x in Filter(s, p) <==> x in s && p(x)
  {
    FilterCount(s, p, x);
    assert x in Filter(s, p) <==> x in multiset(Filter(s, p));
    assert x in s <==> x in multiset(s);
  }

  /** Filtering distributes over concatenation, so appending to a collection appends to each view of it. */
  lemma {:induction false} FilterAppend<T>(s: seq<T>, t: seq<T>, p: T -> bool)
    ensures Filter(s + t, p) == Filter(s, p) + Filter(t, p)
  {
    if s == [] {
      assert s + t == t;
    } else {
      assert (s + t)[0] == s[0];
      assert (s + t)[1..] == s[1..] + t;
      FilterAppend(s[1..], t, p);
    }
  }

  /** The positions of the elements of `s` that satisfy `p`, in order. */
  ghost function FilterIndices<T>(s: seq<T>, p: T -> bool): seq<nat>
  {
    if s == [] then []
    else
      var rest := FilterIndices(s[1..], p);
      (if p(s[0]) then [0] else []) + seq(|rest|, k requires 0 <= k < |rest| => rest[k] + 1)
  }

  /** The k-th kept element is `s` at the k-th satisfying position. */
  lemma {:induction false} FilterIndicesSound<T>(s: seq<T>, p: T -> bool)
    ensures |Filter(s, p)| == |FilterIndices(s, p)|
    ensures forall k :: 0 <= k < |FilterIndices(s, p)| ==>
      FilterIndices(s, p)[k] < |s| && s[FilterIndices(s, p)[k]] == Filter(s, p)[k]
  {
    if s != [] {
      var tail := s[1..];
      FilterIndicesSound(tail, p);
      var rest := FilterIndices(tail, p);
      var ks := FilterIndices(s, p);
      var r := Filter(s, p);
      var n := if p(s[0]) then 1 else 0;
      assert r == (if p(s[0]) then [s[0]] else []) + Filter(tail, p);
      forall k | n <= k < |ks| ensures ks[k] < |s| && s[ks[k]] == r[k] {
        assert ks[k] == rest[k - n] + 1;
        assert r[k] == Filter(tail, p)[k - n];
      }
    }
  }

  /** The satisfying positions are listed in increasing order. */
  lemma {:induction false} FilterIndicesIncrease<T>(s: seq<T>, p: T -> bool)
    ensures forall a, b :: 0 <= a < b < |FilterIndices(s, p)| ==> FilterIndices(s, p)[a] < FilterIndices(s, p)[b]
  {
    if s != [] {
      FilterIndicesIncrease(s[1..], p);
    }
  }

  /** Every satisfying position is listed. */
  lemma {:induction false} FilterIndicesComplete<T>(s: seq<T>, p: T -> bool)
    ensures forall i :: 0 <= i < |s| && p(s[i]) ==> i in FilterIndices(s, p)
  {
    if s != [] {
      var tail := s[1..];
      FilterIndicesComplete(tail, p);
      var rest := FilterIndices(tail, p);
      var ks := FilterIndices(s, p);
      var n := if p(s[0]) then 1 else 0;
      forall i | 1 <= i < |s| && p(s[i]) ensures i in ks {
        assert tail[i - 1] == s[i];
        var k :| 0 <= k < |rest| && rest[k] == i - 1;
        assert ks[n + k] == i;
      }
    }
  }

  /** Filtering keeps order: the k-th kept element is `s` at the k-th satisfying
      position, those positions increase, and every satisfying position is one of them. */
  lemma FilterKeepsOrder<T>(s: seq<T>, p: T -> bool)
    ensures var r := Filter(s, p);
      var ks := FilterIndices(s, p);
      && |r| == |ks|
      && (forall k :: 0 <= k < |ks| ==> ks[k] < |s| && s[ks[k]] == r[k])
      && (forall a, b :: 0 <= a < b < |ks| ==> ks[a] < ks[b])
      && (forall i :: 0 <= i < |s| && p(s[i]) ==> i in ks)
  {
    FilterIndicesSound(s, p);
    FilterIndicesIncrease(s, p);
    FilterIndicesComplete(s, p);
  }

  /** The present values of `s`, in order (what `.filter(Boolean)` keeps of a
      list whose entries are an object or null). */
  function Somes<T>(s: seq<Option<T>>): (r: seq<T>)
    ensures |r| <= |s|
  {
    if s == [] then []
    else Somes(s[..|s| - 1]) + (match s[|s| - 1] case None => [] case Some(x) => [x])
  }

  /** The positions of the present entries of `s`, in order. */
  ghost function SomeIndices<T>(s: seq<Option<T>>): seq<nat>
  {
    if s == [] then []
    else SomeIndices(s[..|s| - 1]) + (if s[|s| - 1].Some? then [|s| - 1] else [])
  }

  /** The k-th present value sits at the k-th present position, and those positions increase. */
  lemma {:induction false} SomesSound<T>(s: seq<Option<T>>)
    ensures var r := Somes(s);
      var ks := SomeIndices(s);
      && |r| == |ks|
      && (forall k :: 0 <= k < |ks| ==> ks[k] < |s| && s[ks[k]] == Some(r[k]))
      && (forall a, b :: 0 <= a < b < |ks| ==> ks[a] < ks[b])
  {
    if s != [] {
      var init := s[..|s| - 1];
      SomesSound(init);
      assert forall i :: 0 <= i < |init| ==> init[i] == s[i];
    }
  }

  /** Every present value is kept. */
  lemma {:induction false} SomesComplete<T>(s: seq<Option<T>>)
    ensures forall i :: 0 <= i < |s| && s[i].Some? ==> s[i].value in Somes(s)
  {
    if s != [] {
      var init := s[..|s| - 1];
      SomesComplete(init);
      assert forall i :: 0 <= i < |init| ==> init[i] == s[i];
    }
  }
}
