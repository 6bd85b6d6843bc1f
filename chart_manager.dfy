/** `ChartManager`: the order in which a donut chart lists the states, and the
    guard that draws no chart for all-zero counts. Drawing is not modelled. */
module ChartManager {
  import opened Text
  import opened Seqs
  import opened Config
  import opened Tallies
  import opened Wrappers

  // ---------------------------------------------------------------------------
  // the comparator of sortStatesByOrder

  /** `ESTADO_ORDER.indexOf(s)`: its position, -1 when it is not listed. */
  function OrderIndex(s: string): (i: int)
    ensures -1 <= i < |ESTADO_ORDER|
    ensures i == -1 <==> s !in ESTADO_ORDER
    ensures i >= 0 ==> ESTADO_ORDER[i] == s && s !in ESTADO_ORDER[..i]
  {
    if s in ESTADO_ORDER then FirstIndex(ESTADO_ORDER, s) else -1
  }

  /** The comparator read as "a sorts before b": listed states by their
      position, then the unlisted ones in text order. */
  predicate StateBefore(a: string, b: string) {
    var ia, ib := OrderIndex(a), OrderIndex(b);
    if ia == -1 && ib == -1 then LexLt(a, b)
    else if ia == -1 then false
    else if ib == -1 then true
    else ia < ib
  }

  /** No two states are tied: the comparator is a strict total order. */
  lemma StateBeforeTotalOrder()
    ensures StrictOrder(StateBefore)
    ensures forall a, b :: a != b ==> StateBefore(a, b) || StateBefore(b, a)
  {
    LexLtStrictOrder();
    forall a, b | a != b ensures StateBefore(a, b) || StateBefore(b, a) {
      if OrderIndex(a) == -1 && OrderIndex(b) == -1 {
        LexLtTotal(a, b);
      }
    }
  }

  /** After sorting, listed states come first, in their listed order, and the
      unlisted ones follow in text order. */
  lemma SortedStatesOrder(s: seq<string>)
    requires NoInversions(s, StateBefore) && NoDuplicates(s)
    ensures forall i, j :: 0 <= i < j < |s| && s[j] in ESTADO_ORDER ==> s[i] in ESTADO_ORDER
    ensures forall i, j :: 0 <= i < j < |s| && s[i] in ESTADO_ORDER && s[j] in ESTADO_ORDER ==>
              OrderIndex(s[i]) < OrderIndex(s[j])
    ensures forall i, j :: 0 <= i < j < |s| && s[i] !in ESTADO_ORDER && s[j] !in ESTADO_ORDER ==>
              LexLt(s[i], s[j])
  {
    StateBeforeTotalOrder();
    forall i, j | 0 <= i < j < |s| ensures StateBefore(s[i], s[j]) {
      assert s[i] != s[j];
      assert !StateBefore(s[j], s[i]);
    }
  }

  // ---------------------------------------------------------------------------
  // Array.prototype.sort with a comparator

  ghost predicate StrictTotalOrder<T(!new)>(lt: (T, T) -> bool) {
    StrictOrder(lt) && forall a, b :: a != b ==> lt(a, b) || lt(b, a)
  }

  /** "Not before" chains under a strict total order. */
  lemma NotBeforeTransitive<T(!new)>(lt: (T, T) -> bool, x: T, y: T, z: T)
    requires StrictTotalOrder(lt)
    requires !lt(y, x) && !lt(z, y)
    ensures !lt(z, x)
  {
  }

  /** The prefix up to `i` is in order, leaving out position `j`. */
  ghost predicate SortedExcept<T(!new)>(s: seq<T>, lt: (T, T) -> bool, i: nat, j: nat) {
    forall k, l :: 0 <= k < l <= i && l < |s| && k != j && l != j ==> !lt(s[l], s[k])
  }

  /** The element at `j` is before everything after it up to `i`. */
  ghost predicate BeforeTheRest<T(!new)>(s: seq<T>, lt: (T, T) -> bool, i: nat, j: nat) {
    forall l :: j < l <= i && l < |s| ==> lt(s[j], s[l])
  }

  /** Sort `a` in place by `lt`, by insertion. */
  method SortInPlace<T(!new)>(a: array<T>, lt: (T, T) -> bool)
    requires StrictTotalOrder(lt)
    modifies a
    ensures multiset(a[..]) == multiset(old(a[..]))
    ensures NoInversions(a[..], lt)
  {
    var i := 0;
    while i < a.Length
      invariant 0 <= i <= a.Length
      invariant multiset(a[..]) == multiset(old(a[..]))
      invariant NoInversions(a[..i], lt)
    {
      StartInsert(a[..], lt, i);
      var j := i;
      while j > 0 && lt(a[j], a[j - 1])
        invariant 0 <= j <= i
        invariant multiset(a[..]) == multiset(old(a[..]))
        invariant SortedExcept(a[..], lt, i, j) && BeforeTheRest(a[..], lt, i, j)
      {
        ghost var before := a[..];
        a[j], a[j - 1] := a[j - 1], a[j];
        SwapStep(before, a[..], lt, i, j);
        j := j - 1;
      }
      InsertedInOrder(a[..], lt, i, j);
      i := i + 1;
    }
    assert a[..] == a[..a.Length];
  }

  /** Before the element at `i` moves, everything else up to it is in order. */
  lemma StartInsert<T(!new)>(s: seq<T>, lt: (T, T) -> bool, i: nat)
    requires i < |s| && NoInversions(s[..i], lt)
    ensures SortedExcept(s, lt, i, i) && BeforeTheRest(s, lt, i, i)
  {
    forall k, l | 0 <= k < l <= i && l < |s| && k != i && l != i ensures !lt(s[l], s[k]) {
      assert s[..i][k] == s[k] && s[..i][l] == s[l];
    }
  }

  /** Swapping the moving element one place down keeps the loop's facts. */
  lemma SwapStep<T(!new)>(s: seq<T>, t: seq<T>, lt: (T, T) -> bool, i: nat, j: nat)
    requires StrictTotalOrder(lt) && 0 < j <= i < |s|
    requires t == s[j := s[j - 1]][j - 1 := s[j]]
    requires lt(s[j], s[j - 1])
    requires SortedExcept(s, lt, i, j) && BeforeTheRest(s, lt, i, j)
    ensures multiset(t) == multiset(s)
    ensures SortedExcept(t, lt, i, j - 1) && BeforeTheRest(t, lt, i, j - 1)
  {
    assert t == s[..j - 1] + [s[j], s[j - 1]] + s[j + 1..];
    assert s == s[..j - 1] + [s[j - 1], s[j]] + s[j + 1..];
    forall l | j - 1 < l <= i && l < |t| ensures lt(t[j - 1], t[l]) {
      if l > j {
        assert t[l] == s[l];
      }
    }
  }

  /** Once the moving element stops, the prefix up to `i` is in order. */
  lemma InsertedInOrder<T(!new)>(s: seq<T>, lt: (T, T) -> bool, i: nat, j: nat)
    requires StrictTotalOrder(lt) && j <= i < |s|
    requires SortedExcept(s, lt, i, j) && BeforeTheRest(s, lt, i, j)
    requires j == 0 || !lt(s[j], s[j - 1])
    ensures NoInversions(s[..i + 1], lt)
  {
    forall k, l | 0 <= k < l < i + 1 ensures !lt(s[l], s[k]) {
      if l == j {
        if k < j - 1 {
          NotBeforeTransitive(lt, s[k], s[j - 1], s[j]);
        }
      } else if k == j {
        assert lt(s[j], s[l]);
      }
    }
  }

  /** `sortStatesByOrder`: the states sorted in place. */
  method SortStatesByOrder(states: array<string>)
    modifies states
    ensures multiset(states[..]) == multiset(old(states[..]))
    ensures NoInversions(states[..], StateBefore)
  {
    StateBeforeTotalOrder();
    SortInPlace(states, StateBefore);
  }

  // ---------------------------------------------------------------------------
  // createDonutChart

  /** The labels and values handed to the chart. */
  datatype Donut = Donut(labels: seq<string>, values: seq<nat>)

  /** No chart without its canvas or when every count is zero; otherwise the
      states in display order, each with its count. */
  method CreateDonutChart(canvasFound: bool, data: seq<Count>) returns (chart: Option<Donut>)
    requires NoDuplicates(CountKeys(data))
    ensures !canvasFound || Total(data) == 0 <==> chart.None?
    ensures chart.Some? ==>
              && multiset(chart.value.labels) == multiset(CountKeys(data))
              && NoInversions(chart.value.labels, StateBefore)
              && |chart.value.values| == |chart.value.labels|
              && forall i :: 0 <= i < |chart.value.labels| ==>
                   chart.value.values[i] == CountFor(data, chart.value.labels[i])
  {
    if !canvasFound {
      return None;
    }
    if Total(data) == 0 {
      return None;
    }
    var keys := CountKeys(data);
    var states := new string[|keys|](i requires 0 <= i < |keys| => keys[i]);
    assert states[..] == keys;
    SortStatesByOrder(states);
    var labels := states[..];
    chart := Some(Donut(labels, seq(|labels|, i requires 0 <= i < |labels| => CountFor(data, labels[i]))));
  }
}
