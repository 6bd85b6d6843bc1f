/** `FilterManager`: what the week, day and subcontract selectors list and
    select, and the filter values read back from the controls. Assigning the
    selectors' options and values in the page is not modelled. */
module FilterManager {
  import opened Wrappers
  import opened Text
  import opened Seqs
  import opened Items
  import opened Config
  import opened Utils
  import opened DataManagement

  // ---------------------------------------------------------------------------
  // updateWeekSelector

  /** `(a, b) => parseInt(b) - parseInt(a)` read as "a sorts before b": a
      larger week number first; a comparison with `NaN` is a tie. */
  predicate WeekBefore(a: string, b: string) {
    ParseInt(a).Some? && ParseInt(b).Some? && ParseInt(a).value > ParseInt(b).value
  }

  lemma WeekBeforeStrictOrder()
    ensures StrictOrder(WeekBefore)
  {
  }

  /** The week options: the distinct non-empty `Semana` values, numerically
      descending. */
  function WeekOptions(data: seq<Item>): seq<string> {
    SortBy(GetUniqueValues(data, SEMANA), WeekBefore)
  }

  /** The options are exactly the distinct weeks of the records, and no
      week comes after one with a smaller number. */
  lemma WeekOptionsSpec(data: seq<Item>)
    ensures multiset(WeekOptions(data)) == multiset(GetUniqueValues(data, SEMANA))
    ensures NoDuplicates(WeekOptions(data))
    ensures forall x :: x in WeekOptions(data)
              <==> x != "" && exists i :: 0 <= i < |data| && Get(data[i], SEMANA) == Some(x)
    ensures forall i, j :: 0 <= i < j < |WeekOptions(data)| ==>
              !WeekBefore(WeekOptions(data)[j], WeekOptions(data)[i])
  {
    var u := GetUniqueValues(data, SEMANA);
    var w := WeekOptions(data);
    WeekBeforeStrictOrder();
    SortByNoInversions(u, WeekBefore);
    UniqueValuesSpec(data, SEMANA);
    PermutationKeepsDistinct(u, w);
    PermutationSameElements(u, w);
  }

  /** The week kept selected: the current one if it is still listed;
      otherwise the most recent week, unless nothing is listed or the
      current choice is 'all'. */
  function SelectWeek(weeks: seq<string>, current: string): (w: string)
    ensures w in weeks || w == "all"
    ensures current in weeks ==> w == current
    ensures current !in weeks && weeks != [] && current != "all" ==> w == weeks[0]
    ensures current !in weeks && (weeks == [] || current == "all") ==> w == "all"
  {
    if current in weeks then current
    else if |weeks| > 0 && current != "all" then weeks[0]
    else "all"
  }

  // ---------------------------------------------------------------------------
  // updateDaySelector

  /** The records of the chosen week, or all of them for 'all' or ''. */
  function RelevantData(data: seq<Item>, week: string): seq<Item> {
    if week == "all" || week == "" then data else Filter(data, WeekIs(week))
  }

  function WeekIs(week: string): Item -> bool {
    item => Str(Get(item, SEMANA)) == week
  }

  /** `(a, b) => b.localeCompare(a)` read as "a sorts before b": later days first. */
  predicate DayBefore(a: string, b: string) {
    LexLt(b, a)
  }

  /** `${parts[2]}/${parts[1]}/${parts[0]}` of `date.split('-')`, a missing
      part reading as "undefined". */
  function DayLabel(date: string): string {
    var parts := Split(date, '-');
    Part(parts, 2) + "/" + Part(parts, 1) + "/" + parts[0]
  }

  function Part(parts: seq<string>, i: nat): string {
    if i < |parts| then parts[i] else "undefined"
  }

  /** On a 'YYYY-MM-DD' day the label is the one `formatDate` gives. */
  lemma DayLabelIsFormatDate(y: string, m: string, d: string)
    requires '-' !in y && '-' !in m && '-' !in d
    ensures DayLabel(y + "-" + m + "-" + d) == FormatDate(Some(y + "-" + m + "-" + d))
  {
    SplitThree(y, m, d, '-');
    FormatDateParts(y, m, d);
  }

  /** The day selector: its values, their labels, the value shown and
      whether it is disabled. */
  datatype DaySelector = DaySelector(dates: seq<string>, labels: seq<string>, value: string, disabled: bool)

  /** The day selector's contents. `None` when a relevant record has no
      `FechaReporte`: splitting that missing value throws. */
  function DaySelectorFor(data: seq<Item>, week: string, selectLastDate: bool, current: string)
    : Option<DaySelector>
  {
    var column := Distinct(Column(RelevantData(data, week), FECHA_REPORTE));
    if None in column then None
    else
      var dates := SortBy(Defined(column), DayBefore);
      var labels := seq(|dates|, i requires 0 <= i < |dates| => DayLabel(dates[i]));
      var value := if dates == [] then ""
                   else if selectLastDate then dates[0]
                   else if current in dates then current else dates[0];
      Some(DaySelector(dates, labels, value, week == "" || dates == []))
  }

  /** The values of a column known to have no missing entry. */
  function Defined(vs: seq<Option<string>>): (r: seq<string>)
    requires None !in vs
    ensures |r| == |vs|
    ensures forall i :: 0 <= i < |vs| ==> vs[i].Some? && r[i] == vs[i].value
  {
    assert forall i :: 0 <= i < |vs| ==> vs[i] in vs;
    seq(|vs|, i requires 0 <= i < |vs| => vs[i].value)
  }

  lemma DefinedSpec(vs: seq<Option<string>>)
    requires None !in vs && NoDuplicates(vs)
    ensures NoDuplicates(Defined(vs))
    ensures forall x :: x in Defined(vs) <==> Some(x) in vs
  {
    var r := Defined(vs);
    forall x ensures x in r <==> Some(x) in vs {
      if Some(x) in vs {
        var i :| 0 <= i < |vs| && vs[i] == Some(x);
        assert r[i] == x;
      }
    }
    forall i, j | 0 <= i < j < |r| ensures r[i] != r[j] {
      assert vs[i] != vs[j];
    }
  }

  /** A value occurs in a column exactly when some record has it. */
  lemma ColumnHas(data: seq<Item>, field: string, x: string)
    ensures Some(x) in Column(data, field) <==> exists i :: 0 <= i < |data| && Get(data[i], field) == Some(x)
  {
    if exists i :: 0 <= i < |data| && Get(data[i], field) == Some(x) {
      var i :| 0 <= i < |data| && Get(data[i], field) == Some(x);
      assert Column(data, field)[i] == Some(x);
    }
  }

  /** Sorting distinct days latest first makes them strictly decreasing. */
  lemma SortedDays(u: seq<string>)
    requires NoDuplicates(u)
    ensures var s := SortBy(u, DayBefore);
            NoDuplicates(s) && (forall x :: x in s <==> x in u)
            && forall i, j :: 0 <= i < j < |s| ==> LexLt(s[j], s[i])
  {
    var s := SortBy(u, DayBefore);
    assert StrictOrder(DayBefore) by {
      LexLtStrictOrder();
    }
    SortByNoInversions(u, DayBefore);
    PermutationKeepsDistinct(u, s);
    PermutationSameElements(u, s);
    forall i, j | 0 <= i < j < |s| ensures LexLt(s[j], s[i]) {
      assert !DayBefore(s[j], s[i]);
      LexLtTotal(s[i], s[j]);
    }
  }

  /** The dates are the distinct report days of the week's records, latest
      first, each with its label; the shown value is the latest day unless
      the current one is still listed and no jump to the latest day was
      asked for; the control is disabled exactly for week '' or no dates. */
  lemma DaySelectorSpec(data: seq<Item>, week: string, selectLastDate: bool, current: string, s: DaySelector)
    requires DaySelectorFor(data, week, selectLastDate, current) == Some(s)
    ensures forall x :: x in s.dates <==>
              exists i :: 0 <= i < |RelevantData(data, week)| && Get(RelevantData(data, week)[i], FECHA_REPORTE) == Some(x)
    ensures NoDuplicates(s.dates)
    ensures forall i, j :: 0 <= i < j < |s.dates| ==> LexLt(s.dates[j], s.dates[i])
    ensures |s.labels| == |s.dates|
    ensures forall i :: 0 <= i < |s.dates| ==> s.labels[i] == DayLabel(s.dates[i])
    ensures s.dates != [] ==> s.value in s.dates
    ensures s.dates == [] ==> s.value == ""
    ensures s.dates != [] && (selectLastDate || current !in s.dates) ==> s.value == s.dates[0]
    ensures !selectLastDate && current in s.dates ==> s.value == current
    ensures s.disabled <==> week == "" || s.dates == []
  {
    var rel := RelevantData(data, week);
    var column := Distinct(Column(rel, FECHA_REPORTE));
    DefinedSpec(column);
    SortedDays(Defined(column));
    forall x ensures x in s.dates <==> exists i :: 0 <= i < |rel| && Get(rel[i], FECHA_REPORTE) == Some(x) {
      ColumnHas(rel, FECHA_REPORTE, x);
    }
  }

  /** The selector fails exactly when a record of the week has no report day. */
  lemma DaySelectorFails(data: seq<Item>, week: string, selectLastDate: bool, current: string)
    ensures DaySelectorFor(data, week, selectLastDate, current).None?
            <==> exists i :: 0 <= i < |RelevantData(data, week)| && Get(RelevantData(data, week)[i], FECHA_REPORTE).None?
  {
    var rel := RelevantData(data, week);
    if exists i :: 0 <= i < |rel| && Get(rel[i], FECHA_REPORTE).None? {
      var i :| 0 <= i < |rel| && Get(rel[i], FECHA_REPORTE).None?;
      assert Column(rel, FECHA_REPORTE)[i] == None;
    }
  }

  // ---------------------------------------------------------------------------
  // updateSubcontractSelector

  /** The last of the sorted distinct report days; `undefined` when there is none. */
  function LatestDate(data: seq<Item>): Option<string> {
    var allDates := SortBy(GetUniqueValues(data, FECHA_REPORTE), LexLt);
    if allDates == [] then None else Some(allDates[|allDates| - 1])
  }

  function DateIs(date: Option<string>): Item -> bool {
    item => Get(item, FECHA_REPORTE) == date
  }

  /** The subcontracts listed: with data, the sorted distinct non-empty
      `Subcontrato` values of the records of the latest report day, or of all
      records when that day has none; with no data, the predefined list sorted. */
  function SubcontractOptions(data: seq<Item>): seq<string> {
    if |data| > 0 then
      var latest := SortBy(LatestSubcontracts(data), LexLt);
      if latest == [] then SortBy(GetUniqueValues(data, SUBCONTRATO), LexLt) else latest
    else SortBy(PREDEFINED_SUBCONTRACTS, LexLt)
  }

  /** The latest day is a report day no other report day comes after. */
  lemma LatestDateIsLatest(data: seq<Item>, d: string)
    requires d in GetUniqueValues(data, FECHA_REPORTE)
    ensures LatestDate(data).Some?
    ensures !LexLt(LatestDate(data).value, d)
    ensures LatestDate(data).value in GetUniqueValues(data, FECHA_REPORTE)
  {
    LexLtStrictOrder();
    SortedLastNotBefore(GetUniqueValues(data, FECHA_REPORTE), LexLt, d);
  }

  /** Sorting a duplicate-free list by `LexLt` makes it strictly increasing. */
  lemma SortedTexts(u: seq<string>)
    requires NoDuplicates(u)
    ensures var s := SortBy(u, LexLt);
            multiset(s) == multiset(u) && NoDuplicates(s)
            && forall i, j :: 0 <= i < j < |s| ==> LexLt(s[i], s[j])
  {
    var s := SortBy(u, LexLt);
    LexLtStrictOrder();
    SortByNoInversions(u, LexLt);
    PermutationKeepsDistinct(u, s);
    forall i, j | 0 <= i < j < |s| ensures LexLt(s[i], s[j]) {
      LexLtTotal(s[i], s[j]);
    }
  }

  /** The subcontracts of the latest report day. */
  function LatestSubcontracts(data: seq<Item>): seq<string> {
    GetUniqueValues(Filter(data, DateIs(LatestDate(data))), SUBCONTRATO)
  }

  /** The subcontracts of the latest report day are exactly the non-empty
      `Subcontrato` values of the records of that day. */
  lemma LatestSubcontractsSpec(data: seq<Item>, x: string)
    ensures x in LatestSubcontracts(data)
            <==> x != "" && exists i :: 0 <= i < |data| && Get(data[i], SUBCONTRATO) == Some(x)
                                       && Get(data[i], FECHA_REPORTE) == LatestDate(data)
  {
    var rel := Filter(data, DateIs(LatestDate(data)));
    UniqueValuesSpec(rel, SUBCONTRATO);
    FilterMembers(data, DateIs(LatestDate(data)));
    if x in LatestSubcontracts(data) {
      var i :| 0 <= i < |rel| && Get(rel[i], SUBCONTRATO) == Some(x);
      assert rel[i] in data;
      var j :| 0 <= j < |data| && data[j] == rel[i];
      assert DateIs(LatestDate(data))(data[j]);
    }
    if x != "" && exists i :: 0 <= i < |data| && Get(data[i], SUBCONTRATO) == Some(x)
                              && Get(data[i], FECHA_REPORTE) == LatestDate(data) {
      var i :| 0 <= i < |data| && Get(data[i], SUBCONTRATO) == Some(x)
               && Get(data[i], FECHA_REPORTE) == LatestDate(data);
      assert DateIs(LatestDate(data))(data[i]);
      assert data[i] in rel;
      var j :| 0 <= j < |rel| && rel[j] == data[i];
      assert Get(rel[j], SUBCONTRATO) == Some(x);
    }
  }

  /** With data, the list holds the subcontracts of the latest report day
      in increasing order, or all subcontracts when that day names none. */
  lemma SubcontractOptionsWithData(data: seq<Item>)
    requires |data| > 0
    ensures var s := SubcontractOptions(data);
            forall i, j :: 0 <= i < j < |s| ==> LexLt(s[i], s[j])
    ensures LatestSubcontracts(data) != [] ==>
              forall x :: x in SubcontractOptions(data) <==> x in LatestSubcontracts(data)
    ensures LatestSubcontracts(data) == [] ==>
              forall x :: x in SubcontractOptions(data) <==> x in GetUniqueValues(data, SUBCONTRATO)
  {
    var latest := LatestSubcontracts(data);
    if latest != [] {
      UniqueValuesSpec(Filter(data, DateIs(LatestDate(data))), SUBCONTRATO);
      SortedTexts(latest);
      PermutationSameElements(latest, SortBy(latest, LexLt));
    } else {
      var all := GetUniqueValues(data, SUBCONTRATO);
      UniqueValuesSpec(data, SUBCONTRATO);
      SortedTexts(all);
      PermutationSameElements(all, SortBy(all, LexLt));
    }
  }

  /** With no data, the list is the predefined one in increasing order. */
  lemma SubcontractOptionsWithoutData(data: seq<Item>)
    requires |data| == 0
    ensures var s := SubcontractOptions(data);
            forall i, j :: 0 <= i < j < |s| ==> LexLt(s[i], s[j])
    ensures multiset(SubcontractOptions(data)) == multiset(PREDEFINED_SUBCONTRACTS)
  {
    PredefinedDistinct();
    SortedTexts(PREDEFINED_SUBCONTRACTS);
  }

  /** No subcontract is predefined twice. */
  lemma PredefinedDistinct()
    ensures NoDuplicates(PREDEFINED_SUBCONTRACTS)
  {
  }

  // ---------------------------------------------------------------------------
  // getCurrentFilters

  /** The values of the filter controls; `None` for a control not on the page. */
  datatype Controls = Controls(week: Option<string>, day: Option<string>, tematica: Option<string>,
                               item: Option<string>, person: Option<string>, state: Option<string>,
                               subcontract: Option<string>, origin: Option<string>)

  datatype Filters = Filters(week: string, day: string, tematica: string, item: string,
                             person: string, state: string, subcontract: string, origin: string)

  /** `control?.value || default`: 'all' for every filter but the day, whose default is ''. */
  function GetCurrentFilters(c: Controls): Filters {
    Filters(OrElse(c.week, "all"), OrElse(c.day, ""), OrElse(c.tematica, "all"), OrElse(c.item, "all"),
            OrElse(c.person, "all"), OrElse(c.state, "all"), OrElse(c.subcontract, "all"),
            OrElse(c.origin, "all"))
  }

  /** A missing or empty control reads as 'all', the day as ''; a set control
      reads as its value; so only the day filter can be empty. */
  lemma CurrentFiltersDefaults(c: Controls)
    ensures var f := GetCurrentFilters(c);
            && (f.day == "" <==> !Truthy(c.day))
            && (Truthy(c.day) ==> f.day == c.day.value)
            && (!Truthy(c.week) ==> f.week == "all") && (Truthy(c.week) ==> f.week == c.week.value)
            && (!Truthy(c.person) ==> f.person == "all") && (Truthy(c.person) ==> f.person == c.person.value)
            && (!Truthy(c.state) ==> f.state == "all") && (Truthy(c.state) ==> f.state == c.state.value)
            && (!Truthy(c.tematica) ==> f.tematica == "all") && (Truthy(c.tematica) ==> f.tematica == c.tematica.value)
            && (!Truthy(c.item) ==> f.item == "all") && (Truthy(c.item) ==> f.item == c.item.value)
            && (!Truthy(c.subcontract) ==> f.subcontract == "all")
            && (Truthy(c.subcontract) ==> f.subcontract == c.subcontract.value)
            && (!Truthy(c.origin) ==> f.origin == "all") && (Truthy(c.origin) ==> f.origin == c.origin.value)
            && f.week != "" && f.tematica != "" && f.item != "" && f.person != ""
            && f.state != "" && f.subcontract != "" && f.origin != ""
  {
  }
}
