/** Python's `sorted(s, key=...)`: a stable sort by a key. It is modelled as
    insertion sort, which is stable when each element is inserted in front of
    the first element whose key is not smaller. The lemmas prove what
    `sorted` promises: the result is a permutation of the input, ordered by
    key, with elements of equal key in their input order, and it is the only
    sequence with those properties. */
module Sorting {
  import opened Sequences

  /** `le` compares keys the way Python's `<=` does on the key type: any two
      keys are comparable and the comparison is transitive. */
  ghost predicate TotalPreorder<K(!new)>(le: (K, K) -> bool) {
    && (forall a, b :: le(a, b) || le(b, a))
    && (forall a, b, c :: le(a, b) && le(b, c) ==> le(a, c))
  }

  /** Keys that compare both ways are the same key. */
  ghost predicate Antisymmetric<K(!new)>(le: (K, K) -> bool) {
    forall a, b :: le(a, b) && le(b, a) ==> a == b
  }

  /** `s` is ordered by the keys of its elements. */
  ghost predicate Sorted<T, K>(s: seq<T>, key: T -> K, le: (K, K) -> bool) {
    forall i, j :: 0 <= i < j < |s| ==> le(key(s[i]), key(s[j]))
  }

  /** The elements of `s` whose key is `k`, in their order in `s`. */
  function WithKey<T, K(==)>(s: seq<T>, key: T -> K, k: K): (r: seq<T>)
    ensures forall i :: 0 <= i < |r| ==> key(r[i]) == k
    ensures forall i :: 0 <= i < |s| && key(s[i]) == k ==> s[i] in r
    ensures forall i :: 0 <= i < |r| ==> r[i] in s
  {
    FilterSelects(s, x => key(x) == k);
    Filter(s, x => key(x) == k)
  }

  /** `r` lists the elements of every key class of `s` in the same order as
      `s` does: ties keep their input order. */
  ghost predicate Stable<T, K(!new)>(r: seq<T>, s: seq<T>, key: T -> K) {
    forall k :: WithKey(r, key, k) == WithKey(s, key, k)
  }

  /** Inserts `x` in front of the first element whose key is not smaller. */
  function Insert<T, K>(x: T, s: seq<T>, key: T -> K, le: (K, K) -> bool): seq<T>
  {
    if s == [] || le(key(x), key(s[0])) then [x] + s
    else [s[0]] + Insert(x, s[1..], key, le)
  }

  /** `sorted(s, key=key)`. */
  function SortBy<T, K>(s: seq<T>, key: T -> K, le: (K, K) -> bool): seq<T>
  {
    if s == [] then []
    else Insert(s[0], SortBy(s[1..], key, le), key, le)
  }

  /** Inserting adds exactly one occurrence of `x`. */
  lemma {:induction false} InsertPermutes<T, K>(x: T, s: seq<T>, key: T -> K, le: (K, K) -> bool)
    ensures multiset(Insert(x, s, key, le)) == multiset(s) + multiset{x}
  {
    if s != [] && !le(key(x), key(s[0])) {
      InsertPermutes(x, s[1..], key, le);
      assert s == [s[0]] + s[1..];
    }
  }

  /** The result of `SortBy` is a permutation of its input. */
  lemma {:induction false} SortByPermutes<T, K>(s: seq<T>, key: T -> K, le: (K, K) -> bool)
    ensures multiset(SortBy(s, key, le)) == multiset(s)
    ensures |SortBy(s, key, le)| == |s|
  {
    if s != [] {
      SortByPermutes(s[1..], key, le);
      InsertPermutes(s[0], SortBy(s[1..], key, le), key, le);
      assert s == [s[0]] + s[1..];
    }
  }

  /** `Insert` places `x` after the prefix `p` of smaller keys and in front
      of the rest `q` when `q` starts with a key not smaller than `x`'s. */
  lemma {:induction false} InsertBetween<T, K>(x: T, p: seq<T>, q: seq<T>, key: T -> K, le: (K, K) -> bool)
    requires forall i :: 0 <= i < |p| ==> !le(key(x), key(p[i]))
    requires q == [] || le(key(x), key(q[0]))
    ensures Insert(x, p + q, key, le) == p + [x] + q
  {
    if p == [] {
      assert p + q == q;
    } else {
      assert (p + q)[1..] == p[1..] + q;
      InsertBetween(x, p[1..], q, key, le);
      assert p + [x] + q == [p[0]] + (p[1..] + [x] + q);
    }
  }

  /** Sorting `[x] + s` inserts `x` into the sorted `s`. */
  lemma SortByCons<T, K>(x: T, s: seq<T>, key: T -> K, le: (K, K) -> bool)
    ensures SortBy([x] + s, key, le) == Insert(x, SortBy(s, key, le), key, le)
  {
    assert ([x] + s)[1..] == s;
  }

  /** One step of the sort: when `s` sorts to `p + q` and `x` belongs
      between `p` and `q`, then `[x] + s` sorts to `p + [x] + q`. */
  lemma SortByStep<T, K>(x: T, s: seq<T>, p: seq<T>, q: seq<T>, key: T -> K, le: (K, K) -> bool)
    requires SortBy(s, key, le) == p + q
    requires forall i :: 0 <= i < |p| ==> !le(key(x), key(p[i]))
    requires q == [] || le(key(x), key(q[0]))
    ensures SortBy([x] + s, key, le) == p + [x] + q
  {
    SortByCons(x, s, key, le);
    InsertBetween(x, p, q, key, le);
  }

  /** A key below `x` and below every element of `s` is below every element
      of `Insert(x, s)`. */
  lemma {:induction false} InsertLowerBound<T, K>(b: K, x: T, s: seq<T>, key: T -> K, le: (K, K) -> bool)
    requires le(b, key(x))
    requires forall i :: 0 <= i < |s| ==> le(b, key(s[i]))
    ensures forall j :: 0 <= j < |Insert(x, s, key, le)| ==> le(b, key(Insert(x, s, key, le)[j]))
  {
    var r := Insert(x, s, key, le);
    if s == [] || le(key(x), key(s[0])) {
      forall j | 0 < j < |r|
        ensures le(b, key(r[j]))
      {
        assert r[j] == s[j - 1];
      }
    } else {
      InsertLowerBound(b, x, s[1..], key, le);
      var t := Insert(x, s[1..], key, le);
      forall j | 0 < j < |r|
        ensures le(b, key(r[j]))
      {
        assert r[j] == t[j - 1];
      }
    }
  }

  lemma {:induction false} InsertSorted<T, K(!new)>(x: T, s: seq<T>, key: T -> K, le: (K, K) -> bool)
    requires TotalPreorder(le)
    requires Sorted(s, key, le)
    ensures Sorted(Insert(x, s, key, le), key, le)
  {
    var r := Insert(x, s, key, le);
    if s == [] || le(key(x), key(s[0])) {
      forall i, j | 0 <= i < j < |r|
        ensures le(key(r[i]), key(r[j]))
      {
        if i == 0 && j > 1 {
          assert le(key(s[0]), key(s[j - 1]));
        }
      }
    } else {
      SortedTail(s, key, le);
      InsertSorted(x, s[1..], key, le);
      var t := Insert(x, s[1..], key, le);
      assert forall i :: 0 <= i < |s[1..]| ==> le(key(s[0]), key(s[1..][i])) by {
        forall i | 0 <= i < |s[1..]|
          ensures le(key(s[0]), key(s[1..][i]))
        {
          assert s[1..][i] == s[i + 1];
        }
      }
      InsertLowerBound(key(s[0]), x, s[1..], key, le);
      forall i, j | 0 <= i < j < |r|
        ensures le(key(r[i]), key(r[j]))
      {
        if i == 0 {
          assert r[j] == t[j - 1];
        } else {
          assert r[i] == t[i - 1] && r[j] == t[j - 1];
        }
      }
    }
  }

  /** The result of `SortBy` is ordered by key. */
  lemma {:induction false} SortBySorted<T, K(!new)>(s: seq<T>, key: T -> K, le: (K, K) -> bool)
    requires TotalPreorder(le)
    ensures Sorted(SortBy(s, key, le), key, le)
  {
    if s != [] {
      SortBySorted(s[1..], key, le);
      InsertSorted(s[0], SortBy(s[1..], key, le), key, le);
    }
  }

  lemma WithKeyConcat<T, K>(a: seq<T>, b: seq<T>, key: T -> K, k: K)
    ensures WithKey(a + b, key, k) == WithKey(a, key, k) + WithKey(b, key, k)
  {
    FilterConcat(a, b, x => key(x) == k);
  }

  /** A one-element sequence keeps its element exactly when the key matches. */
  lemma WithKeySingle<T, K>(y: T, key: T -> K, k: K)
    ensures WithKey([y], key, k) == if key(y) == k then [y] else []
  {
    FilterCons([y], x => key(x) == k);
    assert [y][1..] == [];
    assert Filter([y][1..], x => key(x) == k) == [];
  }

  /** Two pieces of which one is empty can be swapped. */
  lemma SwapAroundEmpty<T>(a: seq<T>, b: seq<T>, c: seq<T>)
    requires a == [] || b == []
    ensures a + (b + c) == b + (a + c)
  {
    if a == [] {
      assert a + (b + c) == b + c && a + c == c;
    } else {
      assert b + (a + c) == a + c && b + c == c;
    }
  }

  /** Inserting `x` keeps it in front of the other elements of its key
      class, and the other classes as they were. Stated for one key `k`. */
  lemma {:induction false} InsertStableAt<T, K>(x: T, s: seq<T>, key: T -> K, le: (K, K) -> bool, k: K)
    requires le(key(x), key(x))
    ensures WithKey(Insert(x, s, key, le), key, k) == WithKey([x] + s, key, k)
  {
    if s != [] && !le(key(x), key(s[0])) {
      var tail := s[1..];
      var t := Insert(x, tail, key, le);
      InsertStableAt(x, tail, key, le, k);
      var px := if key(x) == k then [x] else [];
      var p0 := if key(s[0]) == k then [s[0]] else [];
      var wt := WithKey(tail, key, k);
      assert ([s[0]] + t)[1..] == t;
      WithKeyCons([s[0]] + t, key, k);
      assert WithKey(Insert(x, s, key, le), key, k) == p0 + WithKey([x] + tail, key, k);
      assert ([x] + tail)[1..] == tail;
      WithKeyCons([x] + tail, key, k);
      assert ([x] + s)[1..] == s;
      WithKeyCons([x] + s, key, k);
      WithKeyCons(s, key, k);
      SwapAroundEmpty(p0, px, wt);
    }
  }

  /** Sorting keeps each key class in input order. Stated for one key `k`. */
  lemma {:induction false} SortByStableAt<T, K(!new)>(s: seq<T>, key: T -> K, le: (K, K) -> bool, k: K)
    requires TotalPreorder(le)
    ensures WithKey(SortBy(s, key, le), key, k) == WithKey(s, key, k)
  {
    if s != [] {
      var tail := s[1..];
      var t := SortBy(tail, key, le);
      SortByStableAt(tail, key, le, k);
      assert le(key(s[0]), key(s[0]));
      InsertStableAt(s[0], t, key, le, k);
      WithKeyConcat([s[0]], t, key, k);
      WithKeyConcat([s[0]], tail, key, k);
      assert s == [s[0]] + tail;
    }
  }

  /** Ties keep their input order. */
  lemma SortByStable<T, K(!new)>(s: seq<T>, key: T -> K, le: (K, K) -> bool)
    requires TotalPreorder(le)
    ensures Stable(SortBy(s, key, le), s, key)
  {
    forall k
      ensures WithKey(SortBy(s, key, le), key, k) == WithKey(s, key, k)
    {
      SortByStableAt(s, key, le, k);
    }
  }

  /** Sorting a sequence that is already ordered returns it unchanged. */
  lemma {:induction false} SortByOfSorted<T, K>(s: seq<T>, key: T -> K, le: (K, K) -> bool)
    requires Sorted(s, key, le)
    ensures SortBy(s, key, le) == s
  {
    if s != [] {
      var tail := s[1..];
      assert Sorted(tail, key, le) by {
        forall i, j | 0 <= i < j < |tail|
          ensures le(key(tail[i]), key(tail[j]))
        {
          assert tail[i] == s[i + 1] && tail[j] == s[j + 1];
        }
      }
      SortByOfSorted(tail, key, le);
      if tail != [] {
        assert le(key(s[0]), key(tail[0]));
      }
      assert s == [s[0]] + tail;
    }
  }

  /** Sorting twice is sorting once. */
  lemma SortByIdempotent<T, K(!new)>(s: seq<T>, key: T -> K, le: (K, K) -> bool)
    requires TotalPreorder(le)
    ensures SortBy(SortBy(s, key, le), key, le) == SortBy(s, key, le)
  {
    SortBySorted(s, key, le);
    SortByOfSorted(SortBy(s, key, le), key, le);
  }

  lemma WithKeyCons<T, K>(s: seq<T>, key: T -> K, k: K)
    requires s != []
    ensures WithKey(s, key, k) == (if key(s[0]) == k then [s[0]] else []) + WithKey(s[1..], key, k)
  {
    WithKeySingle(s[0], key, k);
    WithKeyConcat([s[0]], s[1..], key, k);
    assert s == [s[0]] + s[1..];
  }

  /** The key of the first element of an ordered sequence is at most the key
      of any of its elements. */
  lemma FirstKeyIsLeast<T, K(!new)>(s: seq<T>, key: T -> K, le: (K, K) -> bool, k: K)
    requires TotalPreorder(le)
    requires Sorted(s, key, le)
    requires WithKey(s, key, k) != []
    ensures s != [] && le(key(s[0]), k)
  {
    var w := WithKey(s, key, k);
    assert w[0] in s;
    var j :| 0 <= j < |s| && s[j] == w[0];
    if j == 0 {
      assert le(k, k);
    }
  }

  /** Dropping the first element keeps a sequence ordered. */
  lemma SortedTail<T, K>(s: seq<T>, key: T -> K, le: (K, K) -> bool)
    requires s != [] && Sorted(s, key, le)
    ensures Sorted(s[1..], key, le)
  {
    var tail := s[1..];
    forall i, j | 0 <= i < j < |tail|
      ensures le(key(tail[i]), key(tail[j]))
    {
      assert tail[i] == s[i + 1] && tail[j] == s[j + 1];
    }
  }

  /** Sequences that agree on every key class are empty together. */
  lemma StableEmpty<T, K(!new)>(a: seq<T>, b: seq<T>, key: T -> K)
    requires Stable(a, b, key)
    ensures a == [] <==> b == []
  {
    if a != [] {
      assert a[0] in WithKey(a, key, key(a[0]));
    }
    if b != [] {
      assert b[0] in WithKey(b, key, key(b[0]));
    }
  }

  /** Two non-empty ordered sequences that agree on every key class start
      with the same element. */
  lemma StableSortedHeads<T, K(!new)>(a: seq<T>, b: seq<T>, key: T -> K, le: (K, K) -> bool)
    requires TotalPreorder(le) && Antisymmetric(le)
    requires a != [] && b != []
    requires Sorted(a, key, le) && Sorted(b, key, le)
    requires Stable(a, b, key)
    ensures a[0] == b[0]
  {
    var ka := key(a[0]);
    assert a[0] in WithKey(a, key, ka);
    FirstKeyIsLeast(b, key, le, ka);
    var kb := key(b[0]);
    assert b[0] in WithKey(b, key, kb);
    FirstKeyIsLeast(a, key, le, kb);
    assert ka == kb;
    WithKeyCons(a, key, ka);
    WithKeyCons(b, key, ka);
    assert a[0] == WithKey(a, key, ka)[0] == WithKey(b, key, ka)[0] == b[0];
  }

  /** Removing a common first element keeps two sequences agreeing on every
      key class. */
  lemma StableTails<T, K(!new)>(a: seq<T>, b: seq<T>, key: T -> K)
    requires a != [] && b != [] && a[0] == b[0]
    requires Stable(a, b, key)
    ensures Stable(a[1..], b[1..], key)
  {
    var ta, tb := a[1..], b[1..];
    forall k
      ensures WithKey(ta, key, k) == WithKey(tb, key, k)
    {
      WithKeyCons(a, key, k);
      WithKeyCons(b, key, k);
      var p := if key(a[0]) == k then [a[0]] else [];
      assert WithKey(ta, key, k) == (p + WithKey(ta, key, k))[|p|..];
      assert WithKey(tb, key, k) == (p + WithKey(tb, key, k))[|p|..];
    }
  }

  /** Ordered by an antisymmetric key order and agreeing on every key
      class, two sequences are equal: `sorted` has exactly one possible
      result. */
  lemma {:induction false} SortedStableUnique<T, K(!new)>(a: seq<T>, b: seq<T>, key: T -> K, le: (K, K) -> bool)
    requires TotalPreorder(le) && Antisymmetric(le)
    requires Sorted(a, key, le) && Sorted(b, key, le)
    requires Stable(a, b, key)
    ensures a == b
    decreases |a|
  {
    StableEmpty(a, b, key);
    if a != [] {
      StableSortedHeads(a, b, key, le);
      StableTails(a, b, key);
      SortedTail(a, key, le);
      SortedTail(b, key, le);
      SortedStableUnique(a[1..], b[1..], key, le);
      assert a == [a[0]] + a[1..] && b == [b[0]] + b[1..];
    }
  }

  /** Any ordered arrangement of `s` that keeps ties in input order is the
      result of `SortBy`. */
  lemma SortByCharacterised<T, K(!new)>(r: seq<T>, s: seq<T>, key: T -> K, le: (K, K) -> bool)
    requires TotalPreorder(le) && Antisymmetric(le)
    requires Sorted(r, key, le)
    requires Stable(r, s, key)
    ensures r == SortBy(s, key, le)
  {
    SortBySorted(s, key, le);
    SortByStable(s, key, le);
    SortedStableUnique(r, SortBy(s, key, le), key, le);
  }
}
