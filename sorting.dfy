/** Stable sorting by a numeric key, the behaviour of `Array.prototype.sort` with a
    comparator of the form `(a, b) => key(a) - key(b)`. The model is an insertion
    sort; the lemmas show that it sorts, permutes, is stable, and is the only
    ordering with those three properties, so it agrees with any stable sort. */
module Sorting {

  /** Keys never decrease along `s`. */
  ghost predicate SortedBy<T>(s: seq<T>, key: T -> real)
  {
    forall i, j :: 0 <= i < j < |s| ==> key(s[i]) <= key(s[j])
  }

  /** Places `x` before the first element whose key is at least its own. */
  function Insert<T>(x: T, s: seq<T>, key: T -> real): seq<T>
  {
    if s == [] || key(x) <= key(s[0]) then [x] + s
    else [s[0]] + Insert(x, s[1..], key)
  }

  function SortBy<T>(s: seq<T>, key: T -> real): seq<T>
  {
    if s == [] then [] else Insert(s[0], SortBy(s[1..], key), key)
  }

  /** The elements of `s` whose key is `k`, in their order in `s`. */
  function WithKey<T>(s: seq<T>, key: T -> real, k: real): seq<T>
  {
    if s == [] then [] else (if key(s[0]) == k then [s[0]] else []) + WithKey(s[1..], key, k)
  }

  lemma {:induction false} InsertPermutes<T>(x: T, s: seq<T>, key: T -> real)
    ensures multiset(Insert(x, s, key)) == multiset(s) + multiset{x}
  {
    if s != [] && key(x) > key(s[0]) {
      InsertPermutes(x, s[1..], key);
      assert s == [s[0]] + s[1..];
    }
  }

  lemma {:induction false} InsertSorted<T>(x: T, s: seq<T>, key: T -> real)
    requires SortedBy(s, key)
    ensures SortedBy(Insert(x, s, key), key)
  {
    if s != [] && key(x) > key(s[0]) {
      var rest := Insert(x, s[1..], key);
      InsertSorted(x, s[1..], key);
      InsertPermutes(x, s[1..], key);
      forall i | 0 <= i < |rest|
        ensures key(s[0]) <= key(rest[i])
      {
        assert rest[i] in multiset(rest);
        if rest[i] != x {
          assert rest[i] in multiset(s[1..]);
          var j :| 0 <= j < |s[1..]| && s[1..][j] == rest[i];
          assert s[j + 1] == rest[i];
        }
      }
      assert Insert(x, s, key) == [s[0]] + rest;
    }
  }

  lemma {:induction false} InsertWithKey<T>(x: T, s: seq<T>, key: T -> real, k: real)
    ensures WithKey(Insert(x, s, key), key, k) == (if key(x) == k then [x] else []) + WithKey(s, key, k)
  {
    if s == [] || key(x) <= key(s[0]) {
      assert ([x] + s)[1..] == s;
    } else {
      var rest := Insert(x, s[1..], key);
      InsertWithKey(x, s[1..], key, k);
      assert ([s[0]] + rest)[1..] == rest;
      var head := if key(s[0]) == k then [s[0]] else [];
      var mid := if key(x) == k then [x] else [];
      assert WithKey(Insert(x, s, key), key, k) == head + (mid + WithKey(s[1..], key, k));
      assert WithKey(s, key, k) == head + WithKey(s[1..], key, k);
      // x sorts after s[0], so at most one of them carries the key k
      assert head == [] || mid == [];
    }
  }

  /** The result is ordered by key. */
  lemma {:induction false} SortBySorted<T>(s: seq<T>, key: T -> real)
    ensures SortedBy(SortBy(s, key), key)
  {
    if s != [] {
      SortBySorted(s[1..], key);
      InsertSorted(s[0], SortBy(s[1..], key), key);
    }
  }

  /** The result holds the same elements with the same multiplicities. */
  lemma {:induction false} SortByPermutes<T>(s: seq<T>, key: T -> real)
    ensures multiset(SortBy(s, key)) == multiset(s)
    ensures |SortBy(s, key)| == |s|
  {
    if s != [] {
      SortByPermutes(s[1..], key);
      InsertPermutes(s[0], SortBy(s[1..], key), key);
      assert s == [s[0]] + s[1..];
    }
  }

  /** Stability: elements with equal keys keep their relative order. */
  lemma {:induction false} SortByStable<T>(s: seq<T>, key: T -> real, k: real)
    ensures WithKey(SortBy(s, key), key, k) == WithKey(s, key, k)
  {
    if s != [] {
      SortByStable(s[1..], key, k);
      InsertWithKey(s[0], SortBy(s[1..], key), key, k);
    }
  }

  /** An already ordered sequence is left as it is. */
  lemma {:induction false} SortByKeepsSorted<T>(s: seq<T>, key: T -> real)
    requires SortedBy(s, key)
    ensures SortBy(s, key) == s
  {
    if s != [] {
      assert SortedBy(s[1..], key) by {
        forall i, j | 0 <= i < j < |s[1..]| ensures key(s[1..][i]) <= key(s[1..][j]) {
          assert s[1..][i] == s[i + 1] && s[1..][j] == s[j + 1];
        }
      }
      SortByKeepsSorted(s[1..], key);
      if |s| > 1 {
        assert key(s[0]) <= key(s[1]);
        assert s[1..][0] == s[1];
      }
      assert [s[0]] + s[1..] == s;
    }
  }

  lemma {:induction false} WithKeyEmpty<T>(s: seq<T>, key: T -> real, k: real, i: nat)
    requires i < |s| && key(s[i]) == k
    ensures WithKey(s, key, k) != []
  {
    if i > 0 {
      assert s[1..][i - 1] == s[i];
      WithKeyEmpty(s[1..], key, k, i - 1);
    }
  }

  /** Two orderings of one collection that are both sorted and both keep the
      order within every key are the same sequence; so SortBy is the result of
      every stable sort. */
  lemma {:induction false} StableSortUnique<T>(r1: seq<T>, r2: seq<T>, key: T -> real)
    requires SortedBy(r1, key) && SortedBy(r2, key)
    requires forall k :: WithKey(r1, key, k) == WithKey(r2, key, k)
    ensures r1 == r2
    decreases |r1|
  {
    if r1 == [] || r2 == [] {
      // the first element of the non-empty one would have no partner with its key
      if r1 != [] {
        WithKeyEmpty(r1, key, key(r1[0]), 0);
      } else if r2 != [] {
        WithKeyEmpty(r2, key, key(r2[0]), 0);
      }
    } else {
      var m1, m2 := key(r1[0]), key(r2[0]);
      assert WithKey(r1, key, m1)[0] == r1[0];
      assert WithKey(r2, key, m2)[0] == r2[0];
      NonEmptyWithKeyHasIndex(r1, key, m2);
      NonEmptyWithKeyHasIndex(r2, key, m1);
      assert m1 == m2;
      assert r1[0] == r2[0];
      forall k
        ensures WithKey(r1[1..], key, k) == WithKey(r2[1..], key, k)
      {
        assert WithKey(r1, key, k) == (if m1 == k then [r1[0]] else []) + WithKey(r1[1..], key, k);
        assert WithKey(r2, key, k) == (if m2 == k then [r2[0]] else []) + WithKey(r2[1..], key, k);
        assert WithKey(r1, key, k) == WithKey(r2, key, k);
        if m1 == k {
          assert WithKey(r1[1..], key, k) == ([r1[0]] + WithKey(r1[1..], key, k))[1..];
          assert WithKey(r2[1..], key, k) == ([r2[0]] + WithKey(r2[1..], key, k))[1..];
        } else {
          assert WithKey(r1[1..], key, k) == [] + WithKey(r1[1..], key, k);
          assert WithKey(r2[1..], key, k) == [] + WithKey(r2[1..], key, k);
        }
      }
      assert SortedBy(r1[1..], key) by {
        forall i, j | 0 <= i < j < |r1[1..]| ensures key(r1[1..][i]) <= key(r1[1..][j]) {
          assert r1[1..][i] == r1[i + 1] && r1[1..][j] == r1[j + 1];
        }
      }
      assert SortedBy(r2[1..], key) by {
        forall i, j | 0 <= i < j < |r2[1..]| ensures key(r2[1..][i]) <= key(r2[1..][j]) {
          assert r2[1..][i] == r2[i + 1] && r2[1..][j] == r2[j + 1];
        }
      }
      StableSortUnique(r1[1..], r2[1..], key);
      assert r1 == [r1[0]] + r1[1..] && r2 == [r2[0]] + r2[1..];
    }
  }

  /** If the other ordering holds an element with key `k`, this sorted one starts at or below `k`. */
  lemma {:induction false} NonEmptyWithKeyHasIndex<T>(s: seq<T>, key: T -> real, k: real)
    requires s != [] && SortedBy(s, key)
    ensures WithKey(s, key, k) != [] ==> key(s[0]) <= k
  {
    if WithKey(s, key, k) != [] {
      var i := WithKeyIndex(s, key, k);
      if i > 0 { assert key(s[0]) <= key(s[i]); }
    }
  }

  lemma {:induction false} WithKeyIndex<T>(s: seq<T>, key: T -> real, k: real) returns (i: nat)
    requires WithKey(s, key, k) != []
    ensures i < |s| && key(s[i]) == k
  {
    if key(s[0]) == k {
      i := 0;
    } else {
      var j := WithKeyIndex(s[1..], key, k);
      i := j + 1;
    }
  }
}
