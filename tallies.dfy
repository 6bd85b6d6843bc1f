/** Counting objects: `counts[k] = (counts[k] || 0) + 1` inside a `forEach`.
    The object is modelled as its entries in insertion order; `Tally` is the
    object a whole pass builds, `Increment` one step of the pass. */
module Tallies {
  import opened Seqs
  import opened Groups

  /** One property `key: n` of a counting object. */
  datatype Count = Count(key: string, n: nat)

  function CountKey(c: Count): string { c.key }

  function Bump(c: Count): Count { Count(c.key, c.n + 1) }

  function CountOf<T>(b: Bucket<T>): Count { Count(b.key, |b.members|) }

  /** `counts[k] = (counts[k] || 0) + 1`. */
  function Increment(cs: seq<Count>, k: string): seq<Count> {
    Upsert(cs, CountKey, k, Count(k, 0), Bump)
  }

  /** The counting object of `xs` by `key`. */
  function Tally<T(!new)>(xs: seq<T>, key: T -> string): seq<Count> {
    Map(GroupBy(xs, key), CountOf)
  }

  /** The keys of a counting object, in order. */
  function CountKeys(cs: seq<Count>): seq<string> {
    Map(cs, CountKey)
  }

  /** The sum of all counts. */
  function Total(cs: seq<Count>): nat
    decreases |cs|
  {
    if cs == [] then 0 else cs[0].n + Total(cs[1..])
  }

  /** `counts[k] || 0`. */
  function CountFor(cs: seq<Count>, k: string): nat
    decreases |cs|
  {
    if cs == [] then 0 else if cs[0].key == k then cs[0].n else CountFor(cs[1..], k)
  }

  /** The elements whose key is `k`. */
  function KeyIs<T>(key: T -> string, k: string): T -> bool {
    x => key(x) == k
  }

  // ---------------------------------------------------------------------------

  /** Counting one more element increments its key's entry. */
  lemma TallyStep<T(!new)>(xs: seq<T>, x: T, key: T -> string)
    ensures Tally(xs + [x], key) == Increment(Tally(xs, key), key(x))
  {
    var k := key(x);
    GroupBySnoc(xs, x, key);
    forall ms: seq<T> ensures CountOf(Bucket(k, ms + [x])) == Bump(CountOf(Bucket(k, ms))) {
    }
    UpsertSummaries(GroupBy(xs, key), k, x, CountOf, CountKey, Count(k, 0), Bump);
  }

  lemma {:induction false} TotalOfCounts<T(!new)>(bs: seq<Bucket<T>>)
    ensures Total(Map(bs, CountOf)) == Size(bs)
    decreases |bs|
  {
    if bs != [] {
      TotalOfCounts(bs[1..]);
      assert Map(bs, CountOf)[1..] == Map(bs[1..], CountOf);
    }
  }

  lemma {:induction false} CountForOfCounts<T(!new)>(bs: seq<Bucket<T>>, k: string)
    ensures CountFor(Map(bs, CountOf), k) == |Members(bs, k)|
    decreases |bs|
  {
    if bs != [] {
      CountForOfCounts(bs[1..], k);
      assert Map(bs, CountOf)[1..] == Map(bs[1..], CountOf);
    }
  }

  /** Every element is counted exactly once. */
  lemma TallyTotal<T(!new)>(xs: seq<T>, key: T -> string)
    ensures Total(Tally(xs, key)) == |xs|
  {
    TotalOfCounts(GroupBy(xs, key));
    GroupBySize(xs, key);
  }

  /** The keys are the distinct keys of the elements, in first-appearance order. */
  lemma TallyKeys<T(!new)>(xs: seq<T>, key: T -> string)
    ensures CountKeys(Tally(xs, key)) == Distinct(Map(xs, key))
  {
    GroupByKeys(xs, key);
    var bs := GroupBy(xs, key);
    var cs := Map(bs, CountOf);
    forall i | 0 <= i < |bs| ensures CountKeys(cs)[i] == BucketKeys(bs)[i] {
      assert cs[i] == CountOf(bs[i]);
      assert CountKeys(cs)[i] == CountKey(cs[i]);
      assert BucketKeys(bs)[i] == bs[i].key;
    }
  }

  /** The count of a key is the number of elements with that key (0 when none). */
  lemma TallyCount<T(!new)>(xs: seq<T>, key: T -> string, k: string)
    ensures CountFor(Tally(xs, key), k) == |Filter(xs, KeyIs(key, k))|
  {
    CountForOfCounts(GroupBy(xs, key), k);
    GroupByMembers(xs, key, k);
    FilterExt(xs, x => key(x) == k, KeyIs(key, k));
  }

  /** A counting object's total is at least each of its counts. */
  lemma {:induction false} CountForAtMostTotal(cs: seq<Count>, k: string)
    ensures CountFor(cs, k) <= Total(cs)
    decreases |cs|
  {
    if cs != [] {
      CountForAtMostTotal(cs[1..], k);
    }
  }

  // ---------------------------------------------------------------------------

  /** A counting pass over `xs`. */
  method CountEach<T(!new)>(xs: seq<T>, key: T -> string) returns (cs: seq<Count>)
    ensures cs == Tally(xs, key)
  {
    cs := [];
    var i := 0;
    while i < |xs|
      invariant 0 <= i <= |xs|
      invariant cs == Tally(xs[..i], key)
    {
      TallyStep(xs[..i], xs[i], key);
      assert xs[..i + 1] == xs[..i] + [xs[i]];
      cs := Increment(cs, key(xs[i]));
      i := i + 1;
    }
    assert xs[..i] == xs;
  }
}
