/** `DataController`: which records the punctual and evolution views keep for
    the current filters, the header counts, and the per-subcontract grouping
    with the counts shown above and inside the subcontract table. Rendering
    is not modelled; the records are passed in rather than read from the
    application state. */
module DataController {
  import opened Wrappers
  import opened Text
  import opened Seqs
  import opened Items
  import opened Groups
  import opened Models
  import opened FilterManager
  import opened DataAnalyzer
  import opened Tallies

  // ---------------------------------------------------------------------------
  // applyPunctualFilters / applyEvolutionFilters

  /** The test `applyPunctualFilters` applies to one record. */
  predicate PunctualMatch(f: Filters, item: Item) {
    && (f.week == "all" || Str(Get(item, SEMANA)) == f.week)
    && (f.day == "" || Get(item, FECHA_REPORTE) == Some(f.day))
    && (f.tematica == "all" || Get(item, TEMATICA) == Some(f.tematica))
    && (f.item == "all" || Get(item, ITEM) == Some(f.item))
    && (f.state == "all" || Get(item, ESTADO) == Some(f.state))
    && (f.person == "all" || HasPerson(item, f.person))
  }

  /** The test `applyEvolutionFilters` applies to one record: the same but
      for the week and the day. */
  predicate EvolutionMatch(f: Filters, item: Item) {
    && (f.tematica == "all" || Get(item, TEMATICA) == Some(f.tematica))
    && (f.item == "all" || Get(item, ITEM) == Some(f.item))
    && (f.state == "all" || Get(item, ESTADO) == Some(f.state))
    && (f.person == "all" || HasPerson(item, f.person))
  }

  function Punctual(f: Filters): Item -> bool { item => PunctualMatch(f, item) }

  function Evolution(f: Filters): Item -> bool { item => EvolutionMatch(f, item) }

  function ApplyPunctualFilters(data: seq<Item>, f: Filters): seq<Item> {
    Filter(data, Punctual(f))
  }

  function ApplyEvolutionFilters(data: seq<Item>, f: Filters): seq<Item> {
    Filter(data, Evolution(f))
  }

  /** Both views keep records of the store, in order, and exactly those that
      pass their test. */
  lemma FiltersKeepMatches(data: seq<Item>, f: Filters)
    ensures IsSubseq(ApplyPunctualFilters(data, f), data)
    ensures IsSubseq(ApplyEvolutionFilters(data, f), data)
    ensures forall x :: x in ApplyPunctualFilters(data, f) <==> x in data && PunctualMatch(f, x)
    ensures forall x :: x in ApplyEvolutionFilters(data, f) <==> x in data && EvolutionMatch(f, x)
  {
    FilterIsSubseq(data, Punctual(f));
    FilterIsSubseq(data, Evolution(f));
    FilterMembers(data, Punctual(f));
    FilterMembers(data, Evolution(f));
  }

  /** Whatever the punctual view keeps, the evolution view keeps too. */
  lemma PunctualWithinEvolution(data: seq<Item>, f: Filters)
    ensures IsSubseq(ApplyPunctualFilters(data, f), ApplyEvolutionFilters(data, f))
  {
    FilterMonotone(data, Punctual(f), Evolution(f));
  }

  /** The evolution view does not depend on the week and day filters. */
  lemma EvolutionIgnoresWeekAndDay(data: seq<Item>, f: Filters, week: string, day: string)
    ensures ApplyEvolutionFilters(data, f.(week := week, day := day)) == ApplyEvolutionFilters(data, f)
  {
    FilterExt(data, Evolution(f.(week := week, day := day)), Evolution(f));
  }

  /** With every week and no day chosen, the two views agree. */
  lemma PunctualWithoutWeekOrDay(data: seq<Item>, f: Filters)
    requires f.week == "all" && f.day == ""
    ensures ApplyPunctualFilters(data, f) == ApplyEvolutionFilters(data, f)
  {
    FilterExt(data, Punctual(f), Evolution(f));
  }

  /** Filters left at their defaults keep every record in both views. */
  lemma DefaultFiltersKeepAll(data: seq<Item>, f: Filters)
    requires f.week == "all" && f.day == "" && f.tematica == "all" && f.item == "all"
    requires f.state == "all" && f.person == "all"
    ensures ApplyPunctualFilters(data, f) == data
    ensures ApplyEvolutionFilters(data, f) == data
  {
    FilterAll(data, Punctual(f));
    FilterAll(data, Evolution(f));
  }

  // ---------------------------------------------------------------------------
  // getCurrentStats

  /** The header counts: records, ADC and PAC records, incorporated and
      editorial ones. A record has one document and one state, so each pair
      counts at most all the records. */
  function GetCurrentStats(data: seq<Item>): (s: Stats)
    ensures s.total == |data|
    ensures s.adc + s.pac <= s.total
    ensures s.incorporated + s.editorial <= s.total
  {
    FilterDisjoint(data, IsAdc, IsPac);
    CountStatesDisjoint(data, INCORPORADA, EN_REVISOR_EDITORIAL);
    Stats(|data|, |Filter(data, IsAdc)|, |Filter(data, IsPac)|,
          CountState(data, INCORPORADA), CountState(data, EN_REVISOR_EDITORIAL))
  }

  /** The header agrees with the state analysis: ADC and PAC counts are the
      totals of the per-document tallies, and the incorporated count is the
      completion statistics' completed count. */
  lemma CurrentStatsAgreeWithAnalysis(data: seq<Item>)
    ensures GetCurrentStats(data).adc == Total(Tally(Filter(data, IsAdc), StateKey))
    ensures GetCurrentStats(data).pac == Total(Tally(Filter(data, IsPac), StateKey))
    ensures GetCurrentStats(data).incorporated == CalculateCompletionStats(data).completed
  {
    TallyTotal(Filter(data, IsAdc), StateKey);
    TallyTotal(Filter(data, IsPac), StateKey);
    FilterExt(data, StateIs(INCORPORADA), IsCompleted);
  }

  // ---------------------------------------------------------------------------
  // getSubcontractsData

  datatype Subcontract = Subcontract(name: string, total: nat, incorporated: nat, editorial: nat,
                                     inProgress: nat, items: seq<Item>)

  /** `item.Subcontrato || 'Sin Subcontrato'`. */
  function SubcontractKey(item: Item): string {
    OrElse(Get(item, SUBCONTRATO), "Sin Subcontrato")
  }

  /** Neither incorporated nor in editorial review: counted as in progress. */
  predicate IsOtherState(item: Item) {
    !HasState(item, INCORPORADA) && !HasState(item, EN_REVISOR_EDITORIAL)
  }

  function SubcontractName(s: Subcontract): string { s.name }

  /** The entry of one subcontract's records. */
  function SubcontractSummary(b: Bucket<Item>): Subcontract {
    Subcontract(b.key, |b.members|, CountState(b.members, INCORPORADA),
                CountState(b.members, EN_REVISOR_EDITORIAL), |Filter(b.members, IsOtherState)|, b.members)
  }

  /** `Array.from(subcontractsMap.values())`. */
  function SubcontractsOf(data: seq<Item>): seq<Subcontract> {
    Map(GroupBy(data, SubcontractKey), SubcontractSummary)
  }

  /** Counting `item` in its subcontract's entry. */
  function CountSubcontract(item: Item): Subcontract -> Subcontract {
    (s: Subcontract) =>
      Subcontract(s.name, s.total + 1,
                  s.incorporated + Indicator(HasState(item, INCORPORADA)),
                  s.editorial + Indicator(HasState(item, EN_REVISOR_EDITORIAL)),
                  s.inProgress + Indicator(IsOtherState(item)),
                  s.items + [item])
  }

  /** One record's step: open its subcontract at zero if needed, then count it. */
  function AddToSubcontract(ss: seq<Subcontract>, item: Item): seq<Subcontract> {
    var k := SubcontractKey(item);
    Upsert(ss, SubcontractName, k, Subcontract(k, 0, 0, 0, 0, []), CountSubcontract(item))
  }

  lemma SubcontractStep(data: seq<Item>, item: Item)
    ensures SubcontractsOf(data + [item]) == AddToSubcontract(SubcontractsOf(data), item)
  {
    var k := SubcontractKey(item);
    var update := CountSubcontract(item);
    GroupBySnoc(data, item, SubcontractKey);
    forall ms: seq<Item> ensures SubcontractSummary(Bucket(k, ms + [item])) == update(SubcontractSummary(Bucket(k, ms))) {
      FilterSnoc(ms, item, StateIs(INCORPORADA));
      FilterSnoc(ms, item, StateIs(EN_REVISOR_EDITORIAL));
      FilterSnoc(ms, item, IsOtherState);
    }
    assert [] + [item] == [item];
    UpsertSummaries(GroupBy(data, SubcontractKey), k, item, SubcontractSummary, SubcontractName,
                    Subcontract(k, 0, 0, 0, 0, []), update);
  }

  method GetSubcontractsData(data: seq<Item>) returns (ss: seq<Subcontract>)
    ensures ss == SubcontractsOf(data)
  {
    ss := [];
    var i := 0;
    while i < |data|
      invariant 0 <= i <= |data|
      invariant ss == SubcontractsOf(data[..i])
    {
      SubcontractStep(data[..i], data[i]);
      assert data[..i + 1] == data[..i] + [data[i]];
      ss := AddToSubcontract(ss, data[i]);
      i := i + 1;
    }
    assert data[..i] == data;
  }

  /** Each entry's three counters split its records, which are exactly the
      store's records of that subcontract, in order. */
  lemma SubcontractEntries(data: seq<Item>, j: nat)
    requires j < |SubcontractsOf(data)|
    ensures var s := SubcontractsOf(data)[j];
            && s.total == |s.items| > 0
            && s.incorporated + s.editorial + s.inProgress == s.total
            && s.items == Filter(data, KeyIs(SubcontractKey, s.name))
  {
    var bs := GroupBy(data, SubcontractKey);
    var b := bs[j];
    var s := SubcontractsOf(data)[j];
    assert s == SubcontractSummary(b);
    FilterThreeWay(b.members, StateIs(INCORPORADA), StateIs(EN_REVISOR_EDITORIAL), IsOtherState);
    GroupByKeys(data, SubcontractKey);
    assert BucketKeys(bs)[j] == b.key;
    MembersAt(bs, j);
    GroupByMembers(data, SubcontractKey, b.key);
    FilterExt(data, x => SubcontractKey(x) == b.key, KeyIs(SubcontractKey, b.key));
    BucketsNonEmpty(data, SubcontractKey, j);
  }

  /** Every bucket of a grouping holds at least one record. */
  lemma {:induction false} BucketsNonEmpty(xs: seq<Item>, key: Item -> string, j: nat)
    requires j < |GroupBy(xs, key)|
    ensures |GroupBy(xs, key)[j].members| > 0
    decreases |xs|
  {
    var init := xs[..|xs| - 1];
    var x := xs[|xs| - 1];
    AddToNonEmpty(GroupBy(init, key), key(x), x, j);
    if j < |GroupBy(init, key)| {
      BucketsNonEmpty(init, key, j);
    }
  }

  lemma {:induction false} AddToNonEmpty(bs: seq<Bucket<Item>>, k: string, x: Item, j: nat)
    requires j < |AddTo(bs, k, x)|
    ensures j < |bs| || |AddTo(bs, k, x)[j].members| > 0
    ensures j < |bs| ==> |AddTo(bs, k, x)[j].members| >= |bs[j].members|
    decreases |bs|
  {
    if bs != [] && bs[0].key != k && j > 0 {
      AddToNonEmpty(bs[1..], k, x, j - 1);
    }
  }

  /** The entries are the distinct subcontract keys in first-appearance
      order, a record without a subcontract going to 'Sin Subcontrato'. */
  lemma SubcontractNames(data: seq<Item>)
    ensures Map(SubcontractsOf(data), SubcontractName) == Distinct(Map(data, SubcontractKey))
    ensures forall i :: 0 <= i < |data| && !Truthy(Get(data[i], SUBCONTRATO)) ==>
              "Sin Subcontrato" in Map(SubcontractsOf(data), SubcontractName)
  {
    var bs := GroupBy(data, SubcontractKey);
    var ss := SubcontractsOf(data);
    GroupByKeys(data, SubcontractKey);
    forall i | 0 <= i < |ss| ensures Map(ss, SubcontractName)[i] == BucketKeys(bs)[i] {
      assert ss[i] == SubcontractSummary(bs[i]);
      assert Map(ss, SubcontractName)[i] == SubcontractName(ss[i]);
      assert BucketKeys(bs)[i] == bs[i].key;
    }
    assert Map(ss, SubcontractName) == Distinct(Map(data, SubcontractKey));
    forall i | 0 <= i < |data| && !Truthy(Get(data[i], SUBCONTRATO))
      ensures "Sin Subcontrato" in Map(ss, SubcontractName)
    {
      assert Map(data, SubcontractKey)[i] == SubcontractKey(data[i]) == "Sin Subcontrato";
    }
  }

  /** The entries' totals add up to the number of records. */
  lemma SubcontractTotals(data: seq<Item>)
    ensures SumOf(SubcontractsOf(data), SubcontractTotal) == |data|
  {
    var bs := GroupBy(data, SubcontractKey);
    forall b: Bucket<Item> ensures SubcontractTotal(SubcontractSummary(b)) == CountWhere(AnyItem)(b) {
      FilterAll(b.members, AnyItem);
    }
    SumOfMap(bs, SubcontractSummary, SubcontractTotal, CountWhere(AnyItem));
    GroupByCountWhere(data, SubcontractKey, AnyItem);
    FilterAll(data, AnyItem);
  }

  function SubcontractTotal(s: Subcontract): nat { s.total }

  function AnyItem(item: Item): bool { true }

  // ---------------------------------------------------------------------------
  // updateSubcontractStats and the pending count of the subcontract table

  datatype SubcontractStats = SubcontractStats(totalSubcontracts: nat, totalQuestions: nat,
                                               totalElaboracion: nat, totalIncorporated: nat,
                                               overallProgress: nat)

  function SubcontractIncorporated(s: Subcontract): nat { s.incorporated }

  /** `sub.items.filter(item => item.Estado === 'En elaboración').length`. */
  function InElaboration(s: Subcontract): nat { CountState(s.items, EN_ELABORACION) }

  function HasRecords(s: Subcontract): bool { s.total > 0 }

  /** The figures above the subcontract table. */
  function UpdateSubcontractStats(ss: seq<Subcontract>): SubcontractStats {
    var questions := SumOf(ss, SubcontractTotal);
    var incorporated := SumOf(ss, SubcontractIncorporated);
    SubcontractStats(|Filter(ss, HasRecords)|, questions, SumOf(ss, InElaboration), incorporated,
                     RoundedPercent(incorporated, questions))
  }

  /** Over the entries of `getSubcontractsData`, every subcontract answers;
      the questions are all the records; the incorporated and in-elaboration
      totals are the store-wide counts of those states; and the progress is a
      percentage. */
  lemma SubcontractStatsOfData(data: seq<Item>)
    ensures var st := UpdateSubcontractStats(SubcontractsOf(data));
            && st.totalSubcontracts == |SubcontractsOf(data)|
            && st.totalQuestions == |data|
            && st.totalIncorporated == CountState(data, INCORPORADA)
            && st.totalElaboracion == CountState(data, EN_ELABORACION)
            && st.overallProgress <= 100
  {
    var bs := GroupBy(data, SubcontractKey);
    var ss := SubcontractsOf(data);
    SubcontractTotals(data);
    forall i | 0 <= i < |ss| ensures HasRecords(ss[i]) {
      SubcontractEntries(data, i);
    }
    FilterAll(ss, HasRecords);
    SumOfMap(bs, SubcontractSummary, SubcontractIncorporated, CountWhere(StateIs(INCORPORADA)));
    GroupByCountWhere(data, SubcontractKey, StateIs(INCORPORADA));
    SumOfMap(bs, SubcontractSummary, InElaboration, CountWhere(StateIs(EN_ELABORACION)));
    GroupByCountWhere(data, SubcontractKey, StateIs(EN_ELABORACION));
    RoundedPercentBounds(CountState(data, INCORPORADA), |data|);
  }

  /** `total - incorporated - editorial - enElaboracion`: the records in none
      of those three states, so never negative. */
  function Pendientes(s: Subcontract): int {
    s.total - s.incorporated - s.editorial - InElaboration(s)
  }

  predicate InNoneOfThree(item: Item) {
    !HasState(item, INCORPORADA) && !HasState(item, EN_REVISOR_EDITORIAL) && !HasState(item, EN_ELABORACION)
  }

  /** For an entry of `getSubcontractsData`, the pending count is the number
      of its records in none of the three counted states. */
  lemma PendientesCount(data: seq<Item>, j: nat)
    requires j < |SubcontractsOf(data)|
    ensures Pendientes(SubcontractsOf(data)[j]) == |Filter(SubcontractsOf(data)[j].items, InNoneOfThree)|
    ensures Pendientes(SubcontractsOf(data)[j]) >= 0
  {
    var s := SubcontractsOf(data)[j];
    var b := GroupBy(data, SubcontractKey)[j];
    assert s == SubcontractSummary(b);
    FilterFourWay(b.members);
  }

  lemma {:induction false} FilterFourWay(ms: seq<Item>)
    ensures CountState(ms, INCORPORADA) + CountState(ms, EN_REVISOR_EDITORIAL) + CountState(ms, EN_ELABORACION)
            + |Filter(ms, InNoneOfThree)| == |ms|
    decreases |ms|
  {
    if ms != [] {
      var init := ms[..|ms| - 1];
      var x := ms[|ms| - 1];
      assert ms == init + [x];
      FilterFourWay(init);
      FilterSnoc(init, x, StateIs(INCORPORADA));
      FilterSnoc(init, x, StateIs(EN_REVISOR_EDITORIAL));
      FilterSnoc(init, x, StateIs(EN_ELABORACION));
      FilterSnoc(init, x, InNoneOfThree);
    }
  }
}
