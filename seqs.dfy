/** `Array.prototype.filter` on sequences, and what it means for a result
    to keep the order of its input. */
module Seqs {

  /** The elements of `s` that satisfy `p`, in the order they have in `s`. */
  function Filter<T(!new)>(s: seq<T>, p: T -> bool): (r: seq<T>)
    ensures |r| <= |s|
    ensures forall x :: x in r <==> x in s && p(x)
    ensures multiset(r) <= multiset(s)
  {
    if s == [] then []
    else
      assert s == [s[0]] + s[1..];
      (if p(s[0]) then [s[0]] else []) + Filter(s[1..], p)
  }

  /** `r` is what remains of `s` after deleting some of its elements:
      the elements of `r` occur in `s` in the same order. */
  predicate IsSubsequence<T(==)>(r: seq<T>, s: seq<T>)
    decreases |s|
  {
    if r == [] then true
    else if s == [] then false
    else (r[0] == s[0] && IsSubsequence(r[1..], s[1..])) || IsSubsequence(r, s[1..])
  }

  lemma {:induction false} FilterIsSubsequence<T(!new)>(s: seq<T>, p: T -> bool)
    ensures IsSubsequence(Filter(s, p), s)
  {
    if s != [] {
      FilterIsSubsequence(s[1..], p);
      var r := Filter(s, p);
      if p(s[0]) {
        assert r[0] == s[0] && r[1..] == Filter(s[1..], p);
      } else {
        assert r == Filter(s[1..], p);
      }
    }
  }

  lemma {:induction false} FilterAppend<T(!new)>(a: seq<T>, b: seq<T>, p: T -> bool)
    ensures Filter(a + b, p) == Filter(a, p) + Filter(b, p)
  {
    if a == [] {
      assert a + b == b;
    } else {
      assert (a + b)[0] == a[0] && (a + b)[1..] == a[1..] + b;
      FilterAppend(a[1..], b, p);
    }
  }

  /** Filtering twice is filtering once by the conjunction. */
  lemma {:induction false} FilterThen<T(!new)>(s: seq<T>, p: T -> bool, q: T -> bool, pq: T -> bool)
    requires forall x :: pq(x) == (p(x) && q(x))
    ensures Filter(Filter(s, p), q) == Filter(s, pq)
  {
    if s != [] {
      FilterThen(s[1..], p, q, pq);
      var head := if p(s[0]) then [s[0]] else [];
      FilterAppend(head, Filter(s[1..], p), q);
      assert Filter(head, q) == if pq(s[0]) then [s[0]] else [];
    }
  }

  /** A filter keeps every copy of a passing element and no copy of a failing one. */
  lemma {:induction false} FilterCount<T(!new)>(s: seq<T>, p: T -> bool, x: T)
    ensures multiset(Filter(s, p))[x] == if p(x) then multiset(s)[x] else 0
  {
    if s != [] {
      FilterCount(s[1..], p, x);
      assert s == [s[0]] + s[1..];
    }
  }

  /** A filter every element passes keeps the whole sequence. */
  lemma {:induction false} FilterKeepsAll<T(!new)>(s: seq<T>, p: T -> bool)
    requires forall x :: x in s ==> p(x)
    ensures Filter(s, p) == s
  {
    if s != [] {
      assert s == [s[0]] + s[1..];
      FilterKeepsAll(s[1..], p);
    }
  }

  /** Narrowing `s`, which is `base` filtered by `acc`, by one more step
      gives `base` filtered by `acc` and the step's own predicate `b`. */
  lemma FilterStage<T(!new)>(base: seq<T>, s: seq<T>, acc: T -> bool, active: bool,
                             p: T -> bool, b: T -> bool, acc': T -> bool)
    requires s == Filter(base, acc)
    requires forall x :: b(x) == (!active || p(x))
    requires forall x :: acc'(x) == (acc(x) && b(x))
    ensures (if active then Filter(s, p) else s) == Filter(base, acc')
  {
    FilterStep(s, active, p, b);
    FilterThen(base, acc, b, acc');
  }

  lemma FilterCons<T(!new)>(s: seq<T>, p: T -> bool)
    requires s != []
    ensures Filter(s, p) == Filter([s[0]], p) + Filter(s[1..], p)
  {
    FilterAppend([s[0]], s[1..], p);
    assert s == [s[0]] + s[1..];
  }

  lemma SameMultisetSameMembers<T(!new)>(a: seq<T>, b: seq<T>)
    requires multiset(a) == multiset(b)
    ensures forall x :: x in a <==> x in b
  {
    forall x ensures x in a <==> x in b {
      assert x in a <==> x in multiset(a);
      assert x in b <==> x in multiset(b);
    }
  }

  /** Two pieces of which one is empty can be concatenated in either order. */
  lemma SwapWhenOneEmpty<T>(a: seq<T>, b: seq<T>, c: seq<T>)
    requires a == [] || b == []
    ensures a + (b + c) == b + (a + c)
  {
  }

  lemma HeadIsMember<T>(s: seq<T>)
    ensures s != [] ==> s[0] in s
  {
  }

  lemma FilterSingleton<T(!new)>(x: T, p: T -> bool)
    ensures Filter([x], p) == if p(x) then [x] else []
  {
    assert [x][1..] == [];
  }

  /** An inactive filter step keeps its input, and an active one filters by `p`:
      either way the step is a filter by `a`, which is `p` when active and true
      otherwise. */
  lemma {:induction false} FilterStep<T(!new)>(s: seq<T>, active: bool, p: T -> bool, a: T -> bool)
    requires forall x :: a(x) == (!active || p(x))
    ensures (if active then Filter(s, p) else s) == Filter(s, a)
  {
    if s != [] {
      FilterStep(s[1..], active, p, a);
      assert s == [s[0]] + s[1..];
    }
  }
}
