/** Sequence combinators the dashboard code uses through JavaScript's array
    methods: `map`, `filter`, `[...new Set(xs)]` (first-occurrence de-duplication) and a
    stable `sort` driven by a "strictly before" comparator.

    Most definitions are written as left folds (on `s[..|s| - 1]` and the last
    element), the shape of a `forEach` loop, so that loop invariants over a
    prefix `s[..i]` unfold them directly. */
module Seqs {

  // ---------------------------------------------------------------------------
  // map

  /** `xs.map(f)`. */
  function Map<T(!new), U>(xs: seq<T>, f: T -> U): (ys: seq<U>)
    ensures |ys| == |xs|
  {
    seq(|xs|, i requires 0 <= i < |xs| => f(xs[i]))
  }

  lemma MapSnoc<T(!new), U>(xs: seq<T>, x: T, f: T -> U)
    ensures Map(xs + [x], f) == Map(xs, f) + [f(x)]
  {
  }

  lemma MapConcat<T(!new), U>(xs: seq<T>, ys: seq<T>, f: T -> U)
    ensures Map(xs + ys, f) == Map(xs, f) + Map(ys, f)
  {
  }

  // ---------------------------------------------------------------------------
  // filter

  /** `s.filter(p)`: the elements of `s` that satisfy `p`, in their order. */
  function Filter<T(!new)>(s: seq<T>, p: T -> bool): (r: seq<T>)
    ensures |r| <= |s|
    decreases |s|
  {
    if s == [] then []
    else Filter(s[..|s| - 1], p) + (if p(s[|s| - 1]) then [s[|s| - 1]] else [])
  }

  /** `filter` keeps exactly the elements that satisfy the predicate. */
  lemma {:induction false} FilterMembers<T(!new)>(s: seq<T>, p: T -> bool)
    ensures forall x :: x in Filter(s, p) <==> x in s && p(x)
    decreases |s|
  {
    if s != [] {
      var init := s[..|s| - 1];
      FilterMembers(init, p);
      assert s == init + [s[|s| - 1]];
    }
  }

  /** One more element at the end extends the filtered sequence by at most that element. */
  lemma FilterSnoc<T(!new)>(s: seq<T>, x: T, p: T -> bool)
    ensures Filter(s + [x], p) == Filter(s, p) + (if p(x) then [x] else [])
  {
    assert (s + [x])[..|s|] == s;
  }

  /** `a` is a (not necessarily contiguous) subsequence of `b`: `b` with some
      elements removed and the rest kept in order. */
  predicate IsSubseq<T(==,!new)>(a: seq<T>, b: seq<T>)
    decreases |b|
  {
    if a == [] then true
    else if b == [] then false
    else (a[|a| - 1] == b[|b| - 1] && IsSubseq(a[..|a| - 1], b[..|b| - 1]))
         || IsSubseq(a, b[..|b| - 1])
  }

  /** Whatever `filter` keeps, it keeps in the original order. */
  lemma {:induction false} FilterIsSubseq<T(!new)>(s: seq<T>, p: T -> bool)
    ensures IsSubseq(Filter(s, p), s)
    decreases |s|
  {
    if s != [] {
      var init := s[..|s| - 1];
      FilterIsSubseq(init, p);
      var f := Filter(s, p);
      if p(s[|s| - 1]) {
        assert f[..|f| - 1] == Filter(init, p);
      } else {
        assert f == Filter(init, p);
      }
    }
  }

  /** A more permissive predicate keeps a super-sequence of what a stricter one keeps. */
  lemma {:induction false} FilterMonotone<T(!new)>(s: seq<T>, p: T -> bool, q: T -> bool)
    requires forall x :: p(x) ==> q(x)
    ensures IsSubseq(Filter(s, p), Filter(s, q))
    decreases |s|
  {
    if s != [] {
      var init := s[..|s| - 1];
      var x := s[|s| - 1];
      FilterMonotone(init, p, q);
      var fp, fq := Filter(s, p), Filter(s, q);
      if p(x) {
        assert fp[..|fp| - 1] == Filter(init, p);
        assert fq[..|fq| - 1] == Filter(init, q);
      } else if q(x) {
        assert fp == Filter(init, p);
        assert fq[..|fq| - 1] == Filter(init, q);
      } else {
        assert fp == Filter(init, p) && fq == Filter(init, q);
      }
    }
  }

  /** Two predicates that never hold together count at most `|s|` elements between them. */
  lemma {:induction false} FilterDisjoint<T(!new)>(s: seq<T>, p: T -> bool, q: T -> bool)
    requires forall x :: !(p(x) && q(x))
    ensures |Filter(s, p)| + |Filter(s, q)| <= |s|
    decreases |s|
  {
    if s != [] {
      FilterDisjoint(s[..|s| - 1], p, q);
    }
  }

  /** `p` and its negation split `s` exactly. */
  lemma {:induction false} FilterPartition<T(!new)>(s: seq<T>, p: T -> bool)
    ensures |Filter(s, p)| + |Filter(s, x => !p(x))| == |s|
    decreases |s|
  {
    if s != [] {
      FilterPartition(s[..|s| - 1], p);
    }
  }

  /** Filtering a concatenation filters each part. */
  lemma {:induction false} FilterConcat<T(!new)>(a: seq<T>, b: seq<T>, p: T -> bool)
    ensures Filter(a + b, p) == Filter(a, p) + Filter(b, p)
    decreases |b|
  {
    if b == [] {
      assert a + b == a;
    } else {
      var bi := b[..|b| - 1];
      FilterConcat(a, bi, p);
      assert (a + b)[..|a + b| - 1] == a + bi;
      assert (a + b)[|a + b| - 1] == b[|b| - 1];
    }
  }

  /** A predicate every element satisfies keeps everything. */
  lemma {:induction false} FilterAll<T(!new)>(s: seq<T>, p: T -> bool)
    requires forall i :: 0 <= i < |s| ==> p(s[i])
    ensures Filter(s, p) == s
    decreases |s|
  {
    if s != [] {
      FilterAll(s[..|s| - 1], p);
    }
  }

  /** Predicates that agree everywhere filter alike. */
  lemma {:induction false} FilterExt<T(!new)>(s: seq<T>, p: T -> bool, q: T -> bool)
    requires forall x :: p(x) == q(x)
    ensures Filter(s, p) == Filter(s, q)
    decreases |s|
  {
    if s != [] {
      FilterExt(s[..|s| - 1], p, q);
    }
  }

  /** Three predicates of which each element satisfies exactly one split `s`. */
  lemma {:induction false} FilterThreeWay<T(!new)>(s: seq<T>, p: T -> bool, q: T -> bool, r: T -> bool)
    requires forall x :: (if p(x) then 1 else 0) + (if q(x) then 1 else 0) + (if r(x) then 1 else 0) == 1
    ensures |Filter(s, p)| + |Filter(s, q)| + |Filter(s, r)| == |s|
    decreases |s|
  {
    if s != [] {
      FilterThreeWay(s[..|s| - 1], p, q, r);
    }
  }

  // ---------------------------------------------------------------------------
  // [...new Set(s)]

  /** No element occurs twice. */
  predicate NoDuplicates<T(==,!new)>(s: seq<T>) {
    forall i, j :: 0 <= i < j < |s| ==> s[i] != s[j]
  }

  /** `[...new Set(s)]`: each distinct element once, where it first occurs. */
  function Distinct<T(==,!new)>(s: seq<T>): (r: seq<T>)
    ensures forall x :: x in r <==> x in s
    ensures NoDuplicates(r)
    ensures |r| <= |s|
    decreases |s|
  {
    if s == [] then []
    else
      var init := s[..|s| - 1];
      assert s == init + [s[|s| - 1]];
      var d := Distinct(init);
      if s[|s| - 1] in d then d else d + [s[|s| - 1]]
  }

  /** Index of the first occurrence of `x` in `s`. */
  function FirstIndex<T(==,!new)>(s: seq<T>, x: T): (i: nat)
    requires x in s
    ensures i < |s| && s[i] == x && x !in s[..i]
  {
    if s[0] == x then 0
    else
      assert s == [s[0]] + s[1..];
      var k := FirstIndex(s[1..], x);
      assert s[..k + 1] == [s[0]] + s[1..][..k];
      1 + k
  }

  /** Appending an element does not move any earlier first occurrence. */
  lemma {:induction false} FirstIndexSnoc<T(!new)>(s: seq<T>, y: T, x: T)
    requires x in s
    ensures FirstIndex(s + [y], x) == FirstIndex(s, x)
  {
    if s[0] != x {
      assert (s + [y])[1..] == s[1..] + [y];
      FirstIndexSnoc(s[1..], y, x);
    }
  }

  /** A new element appended at the end first occurs there. */
  lemma {:induction false} FirstIndexOfNew<T(!new)>(s: seq<T>, y: T)
    requires y !in s
    ensures FirstIndex(s + [y], y) == |s|
  {
    if s != [] {
      assert (s + [y])[1..] == s[1..] + [y];
      FirstIndexOfNew(s[1..], y);
    }
  }

  /** `[...new Set(s)]` keeps only elements of `s`, in their order. */
  lemma {:induction false} DistinctIsSubseq<T(!new)>(s: seq<T>)
    ensures IsSubseq(Distinct(s), s)
    decreases |s|
  {
    if s != [] {
      var init := s[..|s| - 1];
      DistinctIsSubseq(init);
      var d := Distinct(init);
      if s[|s| - 1] in d {
        SubseqOfInit(d, s);
      } else {
        assert Distinct(s)[..|d|] == d;
      }
    }
  }

  /** `[...new Set(s)]` lists elements in the order of their first occurrence in `s`. */
  lemma {:induction false} DistinctFirstOccurrenceOrder<T(!new)>(s: seq<T>)
    ensures forall i, j :: 0 <= i < j < |Distinct(s)| ==>
              FirstIndex(s, Distinct(s)[i]) < FirstIndex(s, Distinct(s)[j])
    decreases |s|
  {
    if s != [] {
      var init := s[..|s| - 1];
      var y := s[|s| - 1];
      assert s == init + [y];
      DistinctFirstOccurrenceOrder(init);
      var d := Distinct(init);
      var r := Distinct(s);
      forall i, j | 0 <= i < j < |r|
        ensures FirstIndex(s, r[i]) < FirstIndex(s, r[j])
      {
        assert r[i] == d[i];
        FirstIndexSnoc(init, y, r[i]);
        if j < |d| {
          assert r[j] == d[j];
          FirstIndexSnoc(init, y, r[j]);
        } else {
          assert r[j] == y && y !in init;
          FirstIndexOfNew(init, y);
        }
      }
    }
  }

  /** A subsequence of the first `|b| - 1` elements is a subsequence of `b`. */
  lemma SubseqOfInit<T(!new)>(a: seq<T>, b: seq<T>)
    requires b != [] && IsSubseq(a, b[..|b| - 1])
    ensures IsSubseq(a, b)
  {
  }

  // ---------------------------------------------------------------------------
  // stable sort by a "strictly before" comparator

  /** A rearrangement of a sequence without duplicates has none. */
  lemma PermutationKeepsDistinct<T(!new)>(u: seq<T>, w: seq<T>)
    requires NoDuplicates(u) && multiset(u) == multiset(w)
    ensures NoDuplicates(w)
  {
    forall i, j | 0 <= i < j < |w| ensures w[i] != w[j] {
      if w[i] == w[j] {
        TwoOccurrences(w, i, j);
        DistinctCount(u, w[i]);
        assert false;
      }
    }
  }

  /** A rearrangement keeps which elements occur. */
  lemma PermutationSameElements<T(!new)>(u: seq<T>, w: seq<T>)
    requires multiset(u) == multiset(w)
    ensures forall x :: x in w <==> x in u
  {
    forall x ensures x in w <==> x in u {
      assert x in w <==> x in multiset(w);
      assert x in u <==> x in multiset(u);
    }
  }

  lemma {:induction false} DistinctCount<T(!new)>(u: seq<T>, x: T)
    requires NoDuplicates(u)
    ensures multiset(u)[x] <= 1
  {
    if u != [] {
      assert u == [u[0]] + u[1..];
      assert u[0] !in u[1..];
      DistinctCount(u[1..], x);
    }
  }

  lemma TwoOccurrences<T(!new)>(w: seq<T>, i: nat, j: nat)
    requires i < j < |w| && w[i] == w[j]
    ensures multiset(w)[w[i]] >= 2
  {
    assert w == w[..i] + [w[i]] + w[i + 1..j] + [w[j]] + w[j + 1..];
  }

  /** `lt` is irreflexive and transitive: a strict partial order. A JavaScript
      comparator `cmp` is read as `lt(a, b) == (cmp(a, b) < 0)`. */
  ghost predicate StrictOrder<T(!new)>(lt: (T, T) -> bool) {
    && (forall a :: !lt(a, a))
    && (forall a, b, c :: lt(a, b) && lt(b, c) ==> lt(a, c))
  }

  /** No element is strictly before an element that precedes it. */
  ghost predicate NoInversions<T(!new)>(s: seq<T>, lt: (T, T) -> bool) {
    forall i, j :: 0 <= i < j < |s| ==> !lt(s[j], s[i])
  }

  /** Insert `x` in front of the first element it is strictly before. */
  function Insert<T(!new)>(x: T, r: seq<T>, lt: (T, T) -> bool): (o: seq<T>)
    ensures |o| == |r| + 1
    ensures multiset(o) == multiset(r) + multiset{x}
  {
    if r == [] then [x]
    else if lt(x, r[0]) then [x] + r
    else
      assert r == [r[0]] + r[1..];
      [r[0]] + Insert(x, r[1..], lt)
  }

  /** Stable insertion sort: later elements are inserted after their equals,
      as the stable `Array.prototype.sort` does. */
  function SortBy<T(!new)>(s: seq<T>, lt: (T, T) -> bool): (o: seq<T>)
    ensures |o| == |s|
    ensures multiset(o) == multiset(s)
    decreases |s|
  {
    if s == [] then []
    else
      assert s == s[..|s| - 1] + [s[|s| - 1]];
      Insert(s[|s| - 1], SortBy(s[..|s| - 1], lt), lt)
  }

  lemma {:induction false} InsertNoInversions<T(!new)>(x: T, r: seq<T>, lt: (T, T) -> bool)
    requires StrictOrder(lt) && NoInversions(r, lt)
    ensures NoInversions(Insert(x, r, lt), lt)
    decreases |r|
  {
    if r == [] {
    } else if lt(x, r[0]) {
      var o := [x] + r;
      assert forall i, j :: 0 <= i < j < |o| ==> !lt(o[j], o[i]);
    } else {
      var t := Insert(x, r[1..], lt);
      InsertNoInversions(x, r[1..], lt);
      var o := [r[0]] + t;
      forall i, j | 0 <= i < j < |o| ensures !lt(o[j], o[i]) {
        if i == 0 {
          var y := t[j - 1];
          assert y in multiset(t);
          assert y == x || y in multiset(r[1..]);
        }
      }
    }
  }

  /** Sorting by a strict partial order leaves no inversions and permutes its input. */
  lemma {:induction false} SortByNoInversions<T(!new)>(s: seq<T>, lt: (T, T) -> bool)
    requires StrictOrder(lt)
    ensures NoInversions(SortBy(s, lt), lt)
    ensures multiset(SortBy(s, lt)) == multiset(s)
    decreases |s|
  {
    if s != [] {
      SortByNoInversions(s[..|s| - 1], lt);
      InsertNoInversions(s[|s| - 1], SortBy(s[..|s| - 1], lt), lt);
    }
  }

  /** The last element of a sorted list is not before any element of the list. */
  lemma SortedLastNotBefore<T(!new)>(u: seq<T>, lt: (T, T) -> bool, d: T)
    requires StrictOrder(lt) && d in u
    ensures |SortBy(u, lt)| > 0
    ensures !lt(SortBy(u, lt)[|u| - 1], d)
    ensures SortBy(u, lt)[|u| - 1] in u
  {
    var s := SortBy(u, lt);
    SortByNoInversions(u, lt);
    assert d in multiset(u);
    assert d in multiset(s);
    var k :| 0 <= k < |s| && s[k] == d;
    assert k < |s| - 1 ==> !lt(s[|s| - 1], s[k]);
    assert s[|s| - 1] in multiset(s);
  }
}
