/** `DataAnalyzer`: state counts per document, state counts per person in a
    role, a per-week timeline and the completion partition. Each counting
    object is modelled as its entries in insertion order. */
module DataAnalyzer {
  import opened Wrappers
  import opened Text
  import opened Seqs
  import opened Groups
  import opened Tallies
  import opened Items

  /** `item.Estado` as an object key. */
  function StateKey(item: Item): string { Str(Get(item, ESTADO)) }

  predicate IsAdc(item: Item) { HasDocument(item, ADC) }

  predicate IsPac(item: Item) { HasDocument(item, PAC) }

  // ---------------------------------------------------------------------------
  // analyzeStates

  datatype StateAnalysis = StateAnalysis(adc: seq<Count>, pac: seq<Count>, total: seq<Count>)

  /** Counting one more record in the object of the records that satisfy `p`. */
  lemma FilteredStep(done: seq<Item>, item: Item, p: Item -> bool)
    ensures Tally(Filter(done + [item], p), StateKey)
            == if p(item) then Increment(Tally(Filter(done, p), StateKey), StateKey(item))
               else Tally(Filter(done, p), StateKey)
  {
    FilterSnoc(done, item, p);
    if p(item) {
      TallyStep(Filter(done, p), item, StateKey);
    } else {
      assert Filter(done + [item], p) == Filter(done, p);
    }
  }

  lemma AdcIsNotPac(item: Item)
    ensures !(IsAdc(item) && IsPac(item))
  {
    assert ADC[0] != PAC[0];
  }

  /** One pass over the records: ADC and PAC records are also counted in
      their document's object, every record in `total`. */
  method AnalyzeStates(data: seq<Item>) returns (a: StateAnalysis)
    ensures a.adc == Tally(Filter(data, IsAdc), StateKey)
    ensures a.pac == Tally(Filter(data, IsPac), StateKey)
    ensures a.total == Tally(data, StateKey)
  {
    var adc, pac, total := [], [], [];
    var i := 0;
    while i < |data|
      invariant 0 <= i <= |data|
      invariant adc == Tally(Filter(data[..i], IsAdc), StateKey)
      invariant pac == Tally(Filter(data[..i], IsPac), StateKey)
      invariant total == Tally(data[..i], StateKey)
    {
      var item := data[i];
      assert data[..i + 1] == data[..i] + [item];
      FilteredStep(data[..i], item, IsAdc);
      FilteredStep(data[..i], item, IsPac);
      TallyStep(data[..i], item, StateKey);
      AdcIsNotPac(item);
      if IsAdc(item) {
        adc := Increment(adc, StateKey(item));
      } else if IsPac(item) {
        pac := Increment(pac, StateKey(item));
      }
      total := Increment(total, StateKey(item));
      i := i + 1;
    }
    assert data[..i] == data;
    a := StateAnalysis(adc, pac, total);
  }

  /** The counts in `total` sum to the number of records, those of ADC and
      PAC together to at most that; each state's count is its number of
      records, and the states are listed in first-appearance order. */
  lemma AnalyzeStatesTotals(data: seq<Item>, state: string)
    ensures Total(Tally(data, StateKey)) == |data|
    ensures Total(Tally(Filter(data, IsAdc), StateKey)) + Total(Tally(Filter(data, IsPac), StateKey)) <= |data|
    ensures CountFor(Tally(data, StateKey), state) == |Filter(data, KeyIs(StateKey, state))|
    ensures CountKeys(Tally(data, StateKey)) == Distinct(Map(data, StateKey))
  {
    TallyTotal(data, StateKey);
    TallyTotal(Filter(data, IsAdc), StateKey);
    TallyTotal(Filter(data, IsPac), StateKey);
    FilterDisjoint(data, IsAdc, IsPac);
    TallyCount(data, StateKey, state);
    TallyKeys(data, StateKey);
  }

  // ---------------------------------------------------------------------------
  // analyzeRoles

  /** One role held in one record: who, and the record's state. */
  datatype Contribution = Contribution(person: string, state: string)

  function PersonOf(c: Contribution): string { c.person }

  function StateOf(c: Contribution): string { c.state }

  /** `person && person.trim() !== ''`. */
  predicate IsRoleHolder(v: Option<string>) {
    Truthy(v) && !IsBlank(v.value)
  }

  /** `[item.Elaborador, item.Revisor, item.Coordinador]`. */
  function RoleValues(item: Item): seq<Option<string>> {
    [Get(item, ELABORADOR), Get(item, REVISOR), Get(item, COORDINADOR)]
  }

  /** The roles among `vs` that someone holds, each credited with `state`. */
  function HolderContributions(vs: seq<Option<string>>, state: string): (cs: seq<Contribution>)
    ensures |cs| <= |vs|
    decreases |vs|
  {
    if vs == [] then []
    else
      var v := vs[|vs| - 1];
      HolderContributions(vs[..|vs| - 1], state)
      + (if IsRoleHolder(v) then [Contribution(v.value, state)] else [])
  }

  /** The contributions of all records, record by record, roles in order. */
  function Contributions(data: seq<Item>): (cs: seq<Contribution>)
    ensures |cs| <= 3 * |data|
    decreases |data|
  {
    if data == [] then []
    else
      var item := data[|data| - 1];
      Contributions(data[..|data| - 1]) + HolderContributions(RoleValues(item), StateKey(item))
  }

  /** One person's state counts. */
  datatype PersonStates = PersonStates(person: string, states: seq<Count>)

  function PersonKey(p: PersonStates): string { p.person }

  function PersonSummary(b: Bucket<Contribution>): PersonStates {
    PersonStates(b.key, Tally(b.members, StateOf))
  }

  /** The per-person objects a list of contributions fills. */
  function RoleSummaries(cs: seq<Contribution>): seq<PersonStates> {
    Map(GroupBy(cs, PersonOf), PersonSummary)
  }

  /** The object `analyzeRoles` returns. */
  function RoleAnalysis(data: seq<Item>): seq<PersonStates> {
    RoleSummaries(Contributions(data))
  }

  /** `roleAnalysis[person][state]++` on one person's entry. */
  function CountRole(state: string): PersonStates -> PersonStates {
    (p: PersonStates) => PersonStates(p.person, Increment(p.states, state))
  }

  /** `roleAnalysis[person] ||= {}; roleAnalysis[person][state]++`. */
  function AddRole(ps: seq<PersonStates>, person: string, state: string): seq<PersonStates> {
    Upsert(ps, PersonKey, person, PersonStates(person, []), CountRole(state))
  }

  lemma RoleStep(cs: seq<Contribution>, c: Contribution)
    ensures RoleSummaries(cs + [c]) == AddRole(RoleSummaries(cs), c.person, c.state)
  {
    var k := c.person;
    var update := CountRole(c.state);
    GroupBySnoc(cs, c, PersonOf);
    forall ms: seq<Contribution> ensures PersonSummary(Bucket(k, ms + [c])) == update(PersonSummary(Bucket(k, ms))) {
      TallyStep(ms, c, StateOf);
    }
    TallyStep([], c, StateOf);
    assert [] + [c] == [c];
    UpsertSummaries(GroupBy(cs, PersonOf), k, c, PersonSummary, PersonKey, PersonStates(k, []), update);
  }

  /** One role of one record more. */
  lemma HolderStep(done: seq<Contribution>, vs: seq<Option<string>>, j: nat, state: string)
    requires j < |vs|
    ensures RoleSummaries(done + HolderContributions(vs[..j + 1], state))
            == if IsRoleHolder(vs[j]) then AddRole(RoleSummaries(done + HolderContributions(vs[..j], state)), vs[j].value, state)
               else RoleSummaries(done + HolderContributions(vs[..j], state))
  {
    var before := done + HolderContributions(vs[..j], state);
    assert vs[..j + 1][..j] == vs[..j];
    if IsRoleHolder(vs[j]) {
      RoleStep(before, Contribution(vs[j].value, state));
      assert before + [Contribution(vs[j].value, state)] == done + HolderContributions(vs[..j + 1], state);
    } else {
      assert before == done + HolderContributions(vs[..j + 1], state);
    }
  }

  /** One record more. */
  lemma RecordStep(data: seq<Item>, i: nat)
    requires i < |data|
    ensures Contributions(data[..i + 1])
            == Contributions(data[..i]) + HolderContributions(RoleValues(data[i]), StateKey(data[i]))
    ensures Contributions(data[..i]) + HolderContributions(RoleValues(data[i])[..0], StateKey(data[i]))
            == Contributions(data[..i])
  {
    assert data[..i + 1][..i] == data[..i];
    assert RoleValues(data[i])[..0] == [];
  }

  /** The nested `forEach`: for each record, for each of its three roles. */
  method AnalyzeRoles(data: seq<Item>) returns (r: seq<PersonStates>)
    ensures r == RoleAnalysis(data)
  {
    r := [];
    var i := 0;
    while i < |data|
      invariant 0 <= i <= |data|
      invariant r == RoleSummaries(Contributions(data[..i]))
    {
      RecordStep(data, i);
      r := AddRecordRoles(r, RoleValues(data[i]), StateKey(data[i]), Contributions(data[..i]));
      i := i + 1;
    }
    assert data[..i] == data;
  }

  /** The inner `forEach` over one record's three roles. */
  method AddRecordRoles(r0: seq<PersonStates>, vs: seq<Option<string>>, state: string, ghost done: seq<Contribution>)
    returns (r: seq<PersonStates>)
    requires r0 == RoleSummaries(done + HolderContributions(vs[..0], state))
    ensures r == RoleSummaries(done + HolderContributions(vs, state))
  {
    r := r0;
    var j := 0;
    while j < |vs|
      invariant 0 <= j <= |vs|
      invariant r == RoleSummaries(done + HolderContributions(vs[..j], state))
    {
      HolderStep(done, vs, j, state);
      if IsRoleHolder(vs[j]) {
        r := AddRole(r, vs[j].value, state);
      }
      j := j + 1;
    }
    assert vs[..j] == vs;
  }

  /** `item` has `person` in one of its three roles, and `person` is not blank. */
  predicate HoldsRole(item: Item, person: string) {
    IsRoleHolder(Some(person)) && Some(person) in RoleValues(item)
  }

  /** The persons of a list of contributions. */
  function Persons(cs: seq<Contribution>): seq<string> {
    Map(cs, PersonOf)
  }

  lemma {:induction false} HolderPersons(vs: seq<Option<string>>, state: string, person: string)
    ensures person in Persons(HolderContributions(vs, state))
            <==> IsRoleHolder(Some(person)) && Some(person) in vs
    decreases |vs|
  {
    if vs != [] {
      var init := vs[..|vs| - 1];
      var v := vs[|vs| - 1];
      HolderPersons(init, state, person);
      assert vs == init + [v];
      var tail := if IsRoleHolder(v) then [Contribution(v.value, state)] else [];
      MapConcat(HolderContributions(init, state), tail, PersonOf);
      if IsRoleHolder(v) {
        assert tail == [Contribution(v.value, state)];
        assert Map(tail, PersonOf)[0] == PersonOf(tail[0]);
      }
      assert Persons(tail) == if IsRoleHolder(v) then [v.value] else [];
      assert Some(person) in vs <==> Some(person) in init || v == Some(person);
    }
  }

  lemma {:induction false} ContributionsPersons(data: seq<Item>, person: string)
    ensures person in Persons(Contributions(data))
            <==> exists i :: 0 <= i < |data| && HoldsRole(data[i], person)
    decreases |data|
  {
    if data != [] {
      var init := data[..|data| - 1];
      var item := data[|data| - 1];
      ContributionsPersons(init, person);
      HolderPersons(RoleValues(item), StateKey(item), person);
      MapConcat(Contributions(init), HolderContributions(RoleValues(item), StateKey(item)), PersonOf);
      if exists i :: 0 <= i < |data| && HoldsRole(data[i], person) {
        var i :| 0 <= i < |data| && HoldsRole(data[i], person);
        if i < |init| {
          assert HoldsRole(init[i], person);
        }
      }
      if exists i :: 0 <= i < |init| && HoldsRole(init[i], person) {
        var i :| 0 <= i < |init| && HoldsRole(init[i], person);
        assert data[i] == init[i];
      }
    }
  }

  /** A person appears in the analysis exactly when some record has them,
      not blank, in one of its roles. */
  lemma RolePersons(data: seq<Item>, person: string)
    ensures person in Map(RoleAnalysis(data), PersonKey)
            <==> exists i :: 0 <= i < |data| && HoldsRole(data[i], person)
  {
    var cs := Contributions(data);
    var bs := GroupBy(cs, PersonOf);
    GroupByKeys(cs, PersonOf);
    ContributionsPersons(data, person);
    var ps := Map(bs, PersonSummary);
    forall j | 0 <= j < |bs| ensures Map(ps, PersonKey)[j] == BucketKeys(bs)[j] {
      assert ps[j] == PersonSummary(bs[j]);
      assert Map(ps, PersonKey)[j] == PersonKey(ps[j]);
      assert BucketKeys(bs)[j] == bs[j].key;
    }
    assert Map(ps, PersonKey) == BucketKeys(bs);
  }

  /** The sum of all counts of all persons. */
  function RoleTotal(ps: seq<PersonStates>): nat
    decreases |ps|
  {
    if ps == [] then 0 else Total(ps[0].states) + RoleTotal(ps[1..])
  }

  lemma {:induction false} RoleTotalOfSummaries(bs: seq<Bucket<Contribution>>)
    ensures RoleTotal(Map(bs, PersonSummary)) == Size(bs)
    decreases |bs|
  {
    if bs != [] {
      RoleTotalOfSummaries(bs[1..]);
      assert Map(bs, PersonSummary)[1..] == Map(bs[1..], PersonSummary);
      TallyTotal(bs[0].members, StateOf);
    }
  }

  /** Every held role is counted once, so all counts together are the number
      of contributions, at most three per record. */
  lemma RoleTotals(data: seq<Item>)
    ensures RoleTotal(RoleAnalysis(data)) == |Contributions(data)|
    ensures RoleTotal(RoleAnalysis(data)) <= 3 * |data|
  {
    RoleTotalOfSummaries(GroupBy(Contributions(data), PersonOf));
    GroupBySize(Contributions(data), PersonOf);
  }

  /** `roleAnalysis[person] || {}`. */
  function StatesOf(ps: seq<PersonStates>, person: string): seq<Count>
    decreases |ps|
  {
    if ps == [] then [] else if ps[0].person == person then ps[0].states else StatesOf(ps[1..], person)
  }

  lemma {:induction false} StatesOfSummaries(bs: seq<Bucket<Contribution>>, person: string)
    ensures StatesOf(Map(bs, PersonSummary), person) == Tally(Members(bs, person), StateOf)
    decreases |bs|
  {
    if bs != [] {
      assert Map(bs, PersonSummary)[1..] == Map(bs[1..], PersonSummary);
      StatesOfSummaries(bs[1..], person);
    }
  }

  /** A person's state counts count exactly that person's contributions. */
  lemma PersonStatesCount(data: seq<Item>, person: string)
    ensures StatesOf(RoleAnalysis(data), person)
            == Tally(Filter(Contributions(data), KeyIs(PersonOf, person)), StateOf)
  {
    var cs := Contributions(data);
    StatesOfSummaries(GroupBy(cs, PersonOf), person);
    GroupByMembers(cs, PersonOf, person);
    FilterExt(cs, x => PersonOf(x) == person, KeyIs(PersonOf, person));
  }

  // ---------------------------------------------------------------------------
  // analyzeTimeline

  datatype WeekTally = WeekTally(week: string, total: nat, incorporadas: nat, enLineaEditorial: nat)

  function WeekName(w: WeekTally): string { w.week }

  /** `item.Semana` as an object key. */
  function WeekKey(item: Item): string { Str(Get(item, SEMANA)) }

  function WeekSummary(b: Bucket<Item>): WeekTally {
    WeekTally(b.key, |b.members|, CountState(b.members, INCORPORADA), CountState(b.members, EN_REVISOR_EDITORIAL))
  }

  /** The object `analyzeTimeline` returns. */
  function Timeline(data: seq<Item>): seq<WeekTally> {
    Map(GroupBy(data, WeekKey), WeekSummary)
  }

  function Indicator(b: bool): nat { if b then 1 else 0 }

  /** Counting `item` in its week's entry. */
  function CountWeek(item: Item): WeekTally -> WeekTally {
    (w: WeekTally) => WeekTally(w.week, w.total + 1,
                                w.incorporadas + Indicator(HasState(item, INCORPORADA)),
                                w.enLineaEditorial + Indicator(HasState(item, EN_REVISOR_EDITORIAL)))
  }

  /** One record's step: open its week at zero if needed, then count it. */
  function AddToWeek(ws: seq<WeekTally>, item: Item): seq<WeekTally> {
    Upsert(ws, WeekName, WeekKey(item), WeekTally(WeekKey(item), 0, 0, 0), CountWeek(item))
  }

  lemma TimelineStep(data: seq<Item>, item: Item)
    ensures Timeline(data + [item]) == AddToWeek(Timeline(data), item)
  {
    var k := WeekKey(item);
    var update := CountWeek(item);
    GroupBySnoc(data, item, WeekKey);
    forall ms: seq<Item> ensures WeekSummary(Bucket(k, ms + [item])) == update(WeekSummary(Bucket(k, ms))) {
      FilterSnoc(ms, item, StateIs(INCORPORADA));
      FilterSnoc(ms, item, StateIs(EN_REVISOR_EDITORIAL));
    }
    assert [] + [item] == [item];
    UpsertSummaries(GroupBy(data, WeekKey), k, item, WeekSummary, WeekName, WeekTally(k, 0, 0, 0), update);
  }

  method AnalyzeTimeline(data: seq<Item>) returns (t: seq<WeekTally>)
    ensures t == Timeline(data)
  {
    t := [];
    var i := 0;
    while i < |data|
      invariant 0 <= i <= |data|
      invariant t == Timeline(data[..i])
    {
      TimelineStep(data[..i], data[i]);
      assert data[..i + 1] == data[..i] + [data[i]];
      t := AddToWeek(t, data[i]);
      i := i + 1;
    }
    assert data[..i] == data;
  }

  function WeekTotals(ws: seq<WeekTally>): nat
    decreases |ws|
  {
    if ws == [] then 0 else ws[0].total + WeekTotals(ws[1..])
  }

  lemma {:induction false} WeekTotalsOfSummaries(bs: seq<Bucket<Item>>)
    ensures WeekTotals(Map(bs, WeekSummary)) == Size(bs)
    decreases |bs|
  {
    if bs != [] {
      WeekTotalsOfSummaries(bs[1..]);
      assert Map(bs, WeekSummary)[1..] == Map(bs[1..], WeekSummary);
    }
  }

  /** Per week, incorporated and editorial records are at most all its
      records; the week totals add up to the number of records; the weeks
      are the distinct `Semana` keys in first-appearance order. */
  lemma TimelineTotals(data: seq<Item>)
    ensures forall w :: w in Timeline(data) ==> w.incorporadas + w.enLineaEditorial <= w.total
    ensures WeekTotals(Timeline(data)) == |data|
    ensures Map(Timeline(data), WeekName) == Distinct(Map(data, WeekKey))
  {
    var bs := GroupBy(data, WeekKey);
    forall w | w in Timeline(data) ensures w.incorporadas + w.enLineaEditorial <= w.total {
      var j :| 0 <= j < |bs| && Timeline(data)[j] == w;
      assert w == WeekSummary(bs[j]);
      CountStatesDisjoint(bs[j].members, INCORPORADA, EN_REVISOR_EDITORIAL);
    }
    WeekTotalsOfSummaries(bs);
    GroupBySize(data, WeekKey);
    GroupByKeys(data, WeekKey);
    var t := Timeline(data);
    forall j | 0 <= j < |bs| ensures Map(t, WeekName)[j] == BucketKeys(bs)[j] {
      assert t[j] == WeekSummary(bs[j]);
      assert Map(t, WeekName)[j] == WeekName(t[j]);
      assert BucketKeys(bs)[j] == bs[j].key;
    }
  }

  // ---------------------------------------------------------------------------
  // calculateCompletionStats

  datatype CompletionStats = CompletionStats(total: nat, completed: nat, inProgress: nat, pending: nat,
                                             completionRate: nat)

  predicate IsCompleted(item: Item) { HasState(item, INCORPORADA) }

  predicate IsInProgress(item: Item) {
    !HasState(item, INCORPORADA) && !HasState(item, EN_ELABORACION)
    && !HasState(item, EN_ELABORACION_CARTOGRAFIA) && !HasState(item, PENDIENTE)
  }

  predicate IsPending(item: Item) {
    HasState(item, PENDIENTE) || HasState(item, EN_ELABORACION) || HasState(item, EN_ELABORACION_CARTOGRAFIA)
  }

  /** `Math.round(part / whole * 100)`, computed exactly: the percentage is
      rounded half up; 0 when `whole` is 0. */
  function RoundedPercent(part: nat, whole: nat): (p: nat)
    ensures whole == 0 ==> p == 0
    ensures whole > 0 ==> 2 * whole * p <= 200 * part + whole < 2 * whole * (p + 1)
  {
    if whole == 0 then 0 else (200 * part + whole) / (2 * whole)
  }

  /** A share of a whole rounds to at most 100 percent, and the whole to exactly 100. */
  lemma RoundedPercentBounds(part: nat, whole: nat)
    requires part <= whole
    ensures RoundedPercent(part, whole) <= 100
    ensures whole > 0 && part == whole ==> RoundedPercent(part, whole) == 100
  {
    var p := RoundedPercent(part, whole);
    if whole > 0 {
      if p > 100 {
        MulMonotone(2 * whole, 101, p);
        assert false;
      }
      if part == whole && p < 100 {
        MulMonotone(2 * whole, p + 1, 100);
        assert false;
      }
    }
  }

  lemma MulMonotone(a: nat, x: nat, y: nat)
    requires x <= y
    ensures a * x <= a * y
  {
  }

  /** Completed, in-progress and pending records partition the records. */
  function CalculateCompletionStats(data: seq<Item>): (s: CompletionStats)
    ensures s.total == |data|
    ensures s.completed + s.inProgress + s.pending == s.total
    ensures s.completed <= s.total && s.completionRate <= 100
    ensures s.total == 0 ==> s.completionRate == 0
  {
    FilterThreeWay(data, IsCompleted, IsInProgress, IsPending);
    var completed := |Filter(data, IsCompleted)|;
    RoundedPercentBounds(completed, |data|);
    CompletionStats(|data|, completed, |Filter(data, IsInProgress)|, |Filter(data, IsPending)|,
                    RoundedPercent(completed, |data|))
  }
}
