/** Grouping records by a text key, the way the dashboard's `forEach` loops
    fill a plain object or a `Map`: one bucket per distinct key, in the order
    the keys first appear, each holding that key's records in their order.

    The loops themselves keep a summary per key (a count, a few counters, the
    list of members); `Upsert` is that update, and `UpsertSummaries` says that
    updating the summaries step by step agrees with summarizing the buckets. */
module Groups {
  import opened Seqs

  datatype Bucket<T> = Bucket(key: string, members: seq<T>)

  /** The keys of the buckets, in order. */
  function BucketKeys<T(!new)>(bs: seq<Bucket<T>>): (ks: seq<string>)
    ensures |ks| == |bs|
  {
    seq(|bs|, i requires 0 <= i < |bs| => bs[i].key)
  }

  /** Add `x` to the bucket of `k`, opening a new bucket at the end when
      there is none. */
  function AddTo<T(!new)>(bs: seq<Bucket<T>>, k: string, x: T): seq<Bucket<T>>
    decreases |bs|
  {
    if bs == [] then [Bucket(k, [x])]
    else if bs[0].key == k then [Bucket(k, bs[0].members + [x])] + bs[1..]
    else [bs[0]] + AddTo(bs[1..], k, x)
  }

  /** The buckets of `xs` by `key`. */
  function GroupBy<T(!new)>(xs: seq<T>, key: T -> string): seq<Bucket<T>>
    decreases |xs|
  {
    if xs == [] then [] else AddTo(GroupBy(xs[..|xs| - 1], key), key(xs[|xs| - 1]), xs[|xs| - 1])
  }

  /** The members of the bucket of `k`; none when there is no such bucket. */
  function Members<T(!new)>(bs: seq<Bucket<T>>, k: string): seq<T>
    decreases |bs|
  {
    if bs == [] then [] else if bs[0].key == k then bs[0].members else Members(bs[1..], k)
  }

  /** The total number of members. */
  function Size<T(!new)>(bs: seq<Bucket<T>>): nat
    decreases |bs|
  {
    if bs == [] then 0 else |bs[0].members| + Size(bs[1..])
  }

  // ---------------------------------------------------------------------------
  // one step

  lemma {:induction false} AddToKeys<T(!new)>(bs: seq<Bucket<T>>, k: string, x: T)
    ensures BucketKeys(AddTo(bs, k, x))
            == if k in BucketKeys(bs) then BucketKeys(bs) else BucketKeys(bs) + [k]
    decreases |bs|
  {
    if bs != [] {
      var rest := bs[1..];
      assert BucketKeys(bs) == [bs[0].key] + BucketKeys(rest);
      if bs[0].key == k {
        assert k in BucketKeys(bs);
        assert BucketKeys(AddTo(bs, k, x)) == [k] + BucketKeys(rest);
      } else {
        var added := AddTo(rest, k, x);
        assert AddTo(bs, k, x) == [bs[0]] + added;
        assert k in BucketKeys(bs) <==> k in BucketKeys(rest);
        AddToKeys(rest, k, x);
        assert BucketKeys([bs[0]] + added) == [bs[0].key] + BucketKeys(added);
      }
    }
  }

  lemma {:induction false} AddToMembers<T(!new)>(bs: seq<Bucket<T>>, k: string, x: T, j: string)
    ensures Members(AddTo(bs, k, x), j) == Members(bs, j) + (if j == k then [x] else [])
    decreases |bs|
  {
    if bs != [] && bs[0].key != k && bs[0].key != j {
      AddToMembers(bs[1..], k, x, j);
    } else if bs != [] && bs[0].key != k {
      assert Members(AddTo(bs, k, x), j) == bs[0].members;
    }
  }

  lemma {:induction false} AddToSize<T(!new)>(bs: seq<Bucket<T>>, k: string, x: T)
    ensures Size(AddTo(bs, k, x)) == Size(bs) + 1
    decreases |bs|
  {
    if bs != [] && bs[0].key != k {
      AddToSize(bs[1..], k, x);
    }
  }

  // ---------------------------------------------------------------------------
  // what grouping promises

  /** The buckets appear in the order their keys first appear: the keys are
      `[...new Set(xs.map(key))]`. */
  lemma {:induction false} GroupByKeys<T(!new)>(xs: seq<T>, key: T -> string)
    ensures BucketKeys(GroupBy(xs, key)) == Distinct(Map(xs, key))
    decreases |xs|
  {
    if xs != [] {
      var init := xs[..|xs| - 1];
      var x := xs[|xs| - 1];
      GroupByKeys(init, key);
      AddToKeys(GroupBy(init, key), key(x), x);
      assert xs == init + [x];
      MapSnoc(init, x, key);
      assert Map(xs, key)[..|xs| - 1] == Map(init, key);
    }
  }

  /** Each key's bucket holds exactly the records with that key, in order. */
  lemma {:induction false} GroupByMembers<T(!new)>(xs: seq<T>, key: T -> string, k: string)
    ensures Members(GroupBy(xs, key), k) == Filter(xs, x => key(x) == k)
    decreases |xs|
  {
    if xs != [] {
      var init := xs[..|xs| - 1];
      GroupByMembers(init, key, k);
      AddToMembers(GroupBy(init, key), key(xs[|xs| - 1]), xs[|xs| - 1], k);
    }
  }

  /** Every record lands in exactly one bucket. */
  lemma {:induction false} GroupBySize<T(!new)>(xs: seq<T>, key: T -> string)
    ensures Size(GroupBy(xs, key)) == |xs|
    decreases |xs|
  {
    if xs != [] {
      var init := xs[..|xs| - 1];
      GroupBySize(init, key);
      AddToSize(GroupBy(init, key), key(xs[|xs| - 1]), xs[|xs| - 1]);
    }
  }

  /** The bucket at a position is the bucket of its key. */
  lemma {:induction false} MembersAt<T(!new)>(bs: seq<Bucket<T>>, i: nat)
    requires i < |bs| && NoDuplicates(BucketKeys(bs))
    ensures Members(bs, bs[i].key) == bs[i].members
    decreases |bs|
  {
    if i > 0 {
      assert BucketKeys(bs)[0] != BucketKeys(bs)[i];
      var rest := bs[1..];
      var ks := BucketKeys(bs);
      assert BucketKeys(rest) == ks[1..];
      forall a, b | 0 <= a < b < |rest| ensures ks[1..][a] != ks[1..][b] {
        assert ks[a + 1] != ks[b + 1];
      }
      MembersAt(rest, i - 1);
    }
  }

  // ---------------------------------------------------------------------------
  // sums over the buckets

  /** `xs.reduce((acc, x) => acc + f(x), 0)`. */
  function SumOf<T>(xs: seq<T>, f: T -> nat): nat
    decreases |xs|
  {
    if xs == [] then 0 else f(xs[0]) + SumOf(xs[1..], f)
  }

  /** Summing the summaries of the buckets sums what they summarize. */
  lemma {:induction false} SumOfMap<T(!new), U>(bs: seq<T>, g: T -> U, f: U -> nat, h: T -> nat)
    requires forall b :: f(g(b)) == h(b)
    ensures SumOf(Map(bs, g), f) == SumOf(bs, h)
    decreases |bs|
  {
    if bs != [] {
      assert Map(bs, g)[1..] == Map(bs[1..], g);
      SumOfMap(bs[1..], g, f, h);
    }
  }

  /** The number of a bucket's members that satisfy `p`. */
  function CountWhere<T(!new)>(p: T -> bool): Bucket<T> -> nat {
    (b: Bucket<T>) => |Filter(b.members, p)|
  }

  lemma {:induction false} AddToCountWhere<T(!new)>(bs: seq<Bucket<T>>, k: string, x: T, p: T -> bool)
    ensures SumOf(AddTo(bs, k, x), CountWhere(p)) == SumOf(bs, CountWhere(p)) + (if p(x) then 1 else 0)
    decreases |bs|
  {
    if bs == [] {
      assert Filter([x], p) == Filter([], p) + (if p(x) then [x] else []);
    } else if bs[0].key == k {
      FilterSnoc(bs[0].members, x, p);
      assert AddTo(bs, k, x)[1..] == bs[1..];
    } else {
      AddToCountWhere(bs[1..], k, x, p);
      assert AddTo(bs, k, x)[1..] == AddTo(bs[1..], k, x);
    }
  }

  /** Counting per bucket and adding up counts every element once. */
  lemma {:induction false} GroupByCountWhere<T(!new)>(xs: seq<T>, key: T -> string, p: T -> bool)
    ensures SumOf(GroupBy(xs, key), CountWhere(p)) == |Filter(xs, p)|
    decreases |xs|
  {
    if xs != [] {
      var init := xs[..|xs| - 1];
      GroupByCountWhere(init, key, p);
      AddToCountWhere(GroupBy(init, key), key(xs[|xs| - 1]), xs[|xs| - 1], p);
    }
  }

  // ---------------------------------------------------------------------------
  // summaries kept per key

  /** `if (!map.has(k)) map.set(k, start); update(map.get(k))`, on a list of
      summaries whose key is read by `keyOf`. */
  function Upsert<V>(vs: seq<V>, keyOf: V -> string, k: string, start: V, update: V -> V): seq<V>
    decreases |vs|
  {
    if vs == [] then [update(start)]
    else if keyOf(vs[0]) == k then [update(vs[0])] + vs[1..]
    else [vs[0]] + Upsert(vs[1..], keyOf, k, start, update)
  }

  /** When a summary names its bucket's key, summarizes a fresh one-record
      bucket as `update(start)` and follows a new member by `update`, then
      upserting the summaries of `bs` summarizes `AddTo(bs, k, x)`. */
  lemma {:induction false} UpsertSummaries<T(!new), V(!new)>(bs: seq<Bucket<T>>, k: string, x: T,
                                                 summary: Bucket<T> -> V, keyOf: V -> string,
                                                 start: V, update: V -> V)
    requires forall b :: keyOf(summary(b)) == b.key
    requires summary(Bucket(k, [x])) == update(start)
    requires forall ms :: summary(Bucket(k, ms + [x])) == update(summary(Bucket(k, ms)))
    ensures Upsert(Map(bs, summary), keyOf, k, start, update) == Map(AddTo(bs, k, x), summary)
    decreases |bs|
  {
    if bs != [] {
      var rest := bs[1..];
      assert Map(bs, summary) == [summary(bs[0])] + Map(rest, summary);
      if bs[0].key == k {
        assert bs[0] == Bucket(k, bs[0].members);
      } else {
        UpsertSummaries(rest, k, x, summary, keyOf, start, update);
        assert Map(AddTo(bs, k, x), summary) == [summary(bs[0])] + Map(AddTo(rest, k, x), summary);
      }
    }
  }

  /** `GroupBy` one record further. */
  lemma GroupBySnoc<T(!new)>(xs: seq<T>, x: T, key: T -> string)
    ensures GroupBy(xs + [x], key) == AddTo(GroupBy(xs, key), key(x), x)
  {
    assert (xs + [x])[..|xs|] == xs;
  }
}
