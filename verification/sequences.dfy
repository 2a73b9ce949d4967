/** The two higher-order operations the game utilities are built from:
    Python's `map` and `filter` over a list, with the facts the callers rely
    on (one output per input; an order-preserving selection). */
module Sequences {

  /** `list(map(f, s))`: one result per element, position by position. */
  function Map<T, U>(s: seq<T>, f: T -> U): (r: seq<U>)
    ensures |r| == |s|
    ensures forall i :: 0 <= i < |s| ==> r[i] == f(s[i])
  {
    seq(|s|, i requires 0 <= i < |s| => f(s[i]))
  }

  /** The elements of `s` from last to first. */
  function Reverse<T>(s: seq<T>): (r: seq<T>)
    ensures |r| == |s|
    ensures forall i :: 0 <= i < |s| ==> r[i] == s[|s| - 1 - i]
  {
    seq(|s|, i requires 0 <= i < |s| => s[|s| - 1 - i])
  }

  /** `list(filter(p, s))`: the elements that satisfy `p`, in input order. */
  function Filter<T>(s: seq<T>, p: T -> bool): seq<T>
  {
    if s == [] then []
    else if p(s[0]) then [s[0]] + Filter(s[1..], p)
    else Filter(s[1..], p)
  }

  /** A filter keeps exactly the elements that satisfy its predicate: every
      kept element satisfies it and comes from the input, every input
      element that satisfies it is kept, and nothing is added. Counting
      occurrences, an element that satisfies it is kept as often as it
      occurs. */
  lemma {:induction false} FilterSelects<T>(s: seq<T>, p: T -> bool)
    ensures |Filter(s, p)| <= |s|
    ensures forall i :: 0 <= i < |Filter(s, p)| ==> p(Filter(s, p)[i]) && Filter(s, p)[i] in s
    ensures forall i :: 0 <= i < |s| && p(s[i]) ==> s[i] in Filter(s, p)
    ensures KeepsCounts(Filter(s, p), s, p)
  {
    if s != [] {
      FilterSelects(s[1..], p);
      assert forall i :: 1 <= i < |s| ==> s[i] == s[1..][i - 1];
    }
    FilterCounts(s, p);
  }

  /** The occurrence count of a filter, element by element. */
  lemma {:induction false} FilterCounts<T>(s: seq<T>, p: T -> bool)
    ensures KeepsCounts(Filter(s, p), s, p)
  {
    FilterSubMultiset(s, p);
    if s != [] {
      var rest := Filter(s[1..], p);
      FilterCounts(s[1..], p);
      FilterCons(s, p);
      assert s == [s[0]] + s[1..];
      forall i | 0 <= i < |s|
        ensures multiset(Filter(s, p))[s[i]] == if p(s[i]) then multiset(s)[s[i]] else 0
      {
        var x := s[i];
        if x in s[1..] {
          var j :| 0 <= j < |s[1..]| && s[1..][j] == x;
          assert multiset(rest)[x] == if p(x) then multiset(s[1..])[x] else 0;
        } else {
          assert multiset(s[1..])[x] == 0;
        }
      }
    }
  }

  /** `r` holds every element of `s` that satisfies `p` exactly as often as
      `s` does, and no other element. */
  ghost predicate KeepsCounts<T>(r: seq<T>, s: seq<T>, p: T -> bool) {
    && multiset(r) <= multiset(s)
    && forall i :: 0 <= i < |s| ==> multiset(r)[s[i]] == if p(s[i]) then multiset(s)[s[i]] else 0
  }

  /** `x` as a one-element filter: `[x]` when it satisfies `p`, else `[]`. */
  function Keep<T>(x: T, p: T -> bool): seq<T> {
    if p(x) then [x] else []
  }

  /** One filter step: the head is kept exactly when it satisfies `p`. */
  lemma FilterCons<T>(s: seq<T>, p: T -> bool)
    requires s != []
    ensures Filter(s, p) == Keep(s[0], p) + Filter(s[1..], p)
  {
  }

  /** Two filter steps at once. */
  lemma FilterConsTwo<T>(s: seq<T>, p: T -> bool)
    requires |s| >= 2
    ensures Filter(s, p) == Keep(s[0], p) + (Keep(s[1], p) + Filter(s[2..], p))
  {
    FilterCons(s, p);
    FilterCons(s[1..], p);
    assert s[1..][1..] == s[2..];
  }

  /** Filtering keeps at most as many copies of each element as there were. */
  lemma {:induction false} FilterSubMultiset<T>(s: seq<T>, p: T -> bool)
    ensures multiset(Filter(s, p)) <= multiset(s)
  {
    if s != [] {
      FilterSubMultiset(s[1..], p);
      assert s == [s[0]] + s[1..];
    }
  }

  /** `a` can be obtained from `b` by deleting elements: `a` keeps the
      relative order that its elements have in `b`. */
  ghost predicate IsSubsequence<T>(a: seq<T>, b: seq<T>)
    decreases |b|
  {
    if a == [] then true
    else if b == [] then false
    else if a[0] == b[0] then IsSubsequence(a[1..], b[1..])
    else IsSubsequence(a, b[1..])
  }

  /** Filtering selects; it never reorders. */
  lemma {:induction false} FilterIsSubsequence<T>(s: seq<T>, p: T -> bool)
    ensures IsSubsequence(Filter(s, p), s)
  {
    if s != [] {
      FilterIsSubsequence(s[1..], p);
      FilterSelects(s[1..], p);
      var rest := Filter(s[1..], p);
      if !p(s[0]) && rest != [] {
        assert p(rest[0]);
      }
    }
  }

  /** Filtering distributes over concatenation. */
  lemma {:induction false} FilterConcat<T>(a: seq<T>, b: seq<T>, p: T -> bool)
    ensures Filter(a + b, p) == Filter(a, p) + Filter(b, p)
  {
    if a == [] {
      assert a + b == b;
    } else {
      assert (a + b)[0] == a[0];
      assert (a + b)[1..] == a[1..] + b;
      FilterConcat(a[1..], b, p);
    }
  }

  /** Filtering by `p` and then by `q` selects what one filter by their
      conjunction `pq` selects. */
  lemma {:induction false} FilterFilter<T>(s: seq<T>, p: T -> bool, q: T -> bool, pq: T -> bool)
    requires forall x :: pq(x) == (p(x) && q(x))
    ensures Filter(Filter(s, p), q) == Filter(s, pq)
  {
    if s != [] {
      FilterFilter(s[1..], p, q, pq);
    }
  }

  /** A subsequence is never longer than the sequence it is taken from. */
  lemma {:induction false} SubsequenceLength<T>(a: seq<T>, b: seq<T>)
    requires IsSubsequence(a, b)
    ensures |a| <= |b|
    decreases |b|
  {
    if a != [] {
      if a[0] == b[0] {
        SubsequenceLength(a[1..], b[1..]);
      } else {
        SubsequenceLength(a, b[1..]);
      }
    }
  }
}
