/** `ExportModule`: the text of a CSV export, the byte buffer handed to the
    spreadsheet download, the report filters, the per-group count reports and
    the summary figures. Workbooks, blobs and downloads are not modelled; the
    records are passed in rather than read from the application state. */
module ExportModule {
  import opened Wrappers
  import opened Text
  import opened Seqs
  import opened Items
  import opened Groups
  import opened Tallies
  import opened Csv
  import opened DataAnalyzer
  import opened DataManagement
  import opened DataController

  // ---------------------------------------------------------------------------
  // s2ab

  newtype Byte = b: int | 0 <= b < 256

  /** `s.charCodeAt(i) & 0xFF`. */
  function ByteOf(c: char): Byte {
    (c as int % 256) as Byte
  }

  function Bytes(s: string): (bs: seq<Byte>)
    ensures |bs| == |s|
  {
    seq(|s|, i requires 0 <= i < |s| => ByteOf(s[i]))
  }

  /** Reading bytes back as characters of codes 0 to 255. */
  function Latin1(bs: seq<Byte>): (s: string)
    ensures |s| == |bs|
  {
    seq(|bs|, i requires 0 <= i < |bs| => bs[i] as int as char)
  }

  /** A binary string, every character a byte, survives the conversion. */
  lemma BytesOfBinaryString(s: string)
    requires forall i :: 0 <= i < |s| ==> s[i] as int < 256
    ensures Latin1(Bytes(s)) == s
  {
    forall i | 0 <= i < |s| ensures Latin1(Bytes(s))[i] == s[i] {
      assert Bytes(s)[i] as int == s[i] as int;
    }
  }

  /** Every byte keeps the low eight bits of its character's code. */
  lemma BytesKeepLowBits(s: string, i: nat)
    requires i < |s|
    ensures Bytes(s)[i] as int == s[i] as int % 256
    ensures s[i] as int < 256 ==> Bytes(s)[i] as int == s[i] as int
  {
  }

  method S2ab(s: string) returns (buf: array<Byte>)
    ensures fresh(buf)
    ensures buf[..] == Bytes(s)
  {
    buf := new Byte[|s|];
    for i := 0 to |s|
      invariant buf[..i] == Bytes(s)[..i]
    {
      buf[i] := ByteOf(s[i]);
    }
  }

  // ---------------------------------------------------------------------------
  // convertToCSV

  /** `headers.map(header => item[header] || '')`. */
  function RowValues(headers: seq<string>, item: Item): (vs: seq<string>)
    ensures |vs| == |headers|
  {
    seq(|headers|, i requires 0 <= i < |headers| => OrElse(Get(item, headers[i]), ""))
  }

  function RowLine(headers: seq<string>): Item -> string {
    item => QuotedLine(RowValues(headers, item))
  }

  function Headers(data: seq<Item>): seq<string>
    requires |data| > 0
  {
    Keys(data[0])
  }

  /** The text `convertToCSV` returns: nothing for no records; otherwise the
      first record's keys joined by ',' and then one line of quoted cells per
      record, all joined by line feeds. */
  function CsvText(data: seq<Item>): string {
    if |data| == 0 then ""
    else Join([Join(Headers(data), ",")] + Map(data, RowLine(Headers(data))), "\n")
  }

  method ConvertToCSV(data: seq<Item>) returns (csv: string)
    ensures csv == CsvText(data)
  {
    if |data| == 0 {
      return "";
    }
    var headers := Keys(data[0]);
    var csvRows := [Join(headers, ",")];
    for i := 0 to |data|
      invariant csvRows == [Join(headers, ",")] + Map(data[..i], RowLine(headers))
    {
      MapSnoc(data[..i], data[i], RowLine(headers));
      assert data[..i + 1] == data[..i] + [data[i]];
      csvRows := csvRows + [QuotedLine(RowValues(headers, data[i]))];
    }
    assert data[..|data|] == data;
    csv := Join(csvRows, "\n");
  }

  /** The cells of every record, in header order. */
  function Table(data: seq<Item>): seq<seq<string>>
    requires |data| > 0
  {
    Map(data, (item: Item) => RowValues(Headers(data), item))
  }

  /** Read back, the export gives the header names and then every record's
      values under them, a missing or empty value as '' — provided the first
      record has a property, and no property name holds ',' or a line feed
      or starts with '"'. No records give the empty text. */
  lemma CsvReadsBack(data: seq<Item>)
    requires |data| > 0 ==> |Headers(data)| >= 1 && forall i :: 0 <= i < |Headers(data)| ==> IsBareName(Headers(data)[i])
    ensures |data| == 0 ==> CsvText(data) == ""
    ensures |data| > 0 ==> ReadRecords(CsvText(data)) == Some([Headers(data)] + Table(data))
  {
    if |data| > 0 {
      var hs := Headers(data);
      var rows := Table(data);
      var lines := Map(data, RowLine(hs));
      assert lines == Map(rows, QuotedLine) by {
        forall i | 0 <= i < |data| ensures lines[i] == Map(rows, QuotedLine)[i] {
          assert rows[i] == RowValues(hs, data[i]);
        }
      }
      var rest := Join(lines, "\n");
      assert CsvText(data) == Join(hs, ",") + ("\n" + rest) by {
        assert ([Join(hs, ",")] + lines)[1..] == lines;
      }
      ReadBareLine(hs, "\n" + rest);
      assert ("\n" + rest)[1..] == rest;
      forall i | 0 <= i < |rows| ensures |rows[i]| >= 1 {
        assert rows[i] == RowValues(hs, data[i]);
      }
      ReadQuotedLines(rows);
      ReadRecordsAfterRecord(CsvText(data), hs, rest);
    }
  }

  // ---------------------------------------------------------------------------
  // applySpecificFilters

  /** One entry of the filters object: ignored when 'all', '' or falsy,
      otherwise the record's property must equal it. */
  predicate SpecificMeets(item: Item, c: Criterion) {
    Ignored(c.value) || Get(item, c.key) == c.value
  }

  predicate SpecificMeetsAll(item: Item, cs: seq<Criterion>) {
    forall j :: 0 <= j < |cs| ==> SpecificMeets(item, cs[j])
  }

  function SpecificMatching(cs: seq<Criterion>): Item -> bool {
    item => SpecificMeetsAll(item, cs)
  }

  function ApplySpecificFilters(data: seq<Item>, cs: seq<Criterion>): seq<Item> {
    Filter(data, SpecificMatching(cs))
  }

  /** The result keeps records in their order, exactly those whose property
      equals every entry that is not ignored. */
  lemma SpecificFiltersSpec(data: seq<Item>, cs: seq<Criterion>)
    ensures IsSubseq(ApplySpecificFilters(data, cs), data)
    ensures forall x :: x in ApplySpecificFilters(data, cs) <==>
              x in data && forall j :: 0 <= j < |cs| && !Ignored(cs[j].value) ==> Get(x, cs[j].key) == cs[j].value
  {
    FilterIsSubseq(data, SpecificMatching(cs));
    FilterMembers(data, SpecificMatching(cs));
  }

  /** Entries that are all ignored keep every record. */
  lemma IgnoredFiltersKeepAll(data: seq<Item>, cs: seq<Criterion>)
    requires forall j :: 0 <= j < |cs| ==> Ignored(cs[j].value)
    ensures ApplySpecificFilters(data, cs) == data
  {
    FilterAll(data, SpecificMatching(cs));
  }

  /** Without a 'person' entry, the report filters and the store's
      `filterData` keep the same records. */
  lemma SpecificFiltersAgreeWithFilterData(data: seq<Item>, cs: seq<Criterion>)
    requires forall j :: 0 <= j < |cs| ==> cs[j].key != "person"
    ensures ApplySpecificFilters(data, cs) == FilterData(data, cs)
  {
    FilterExt(data, SpecificMatching(cs), Matching(cs));
  }

  // ---------------------------------------------------------------------------
  // the count reports

  const CANTIDAD: string := "Cantidad"

  /** `{ [column]: key, Cantidad: count }`; the percentage column is not modelled. */
  function ReportRow(column: string): Count -> Item {
    (c: Count) => Item([Field(column, c.key), Field(CANTIDAD, DecimalText(c.n))])
  }

  function ReportRows(column: string, cs: seq<Count>): seq<Item> {
    Map(cs, ReportRow(column))
  }

  /** Each row names its group under the column and holds its count as
      decimal digits that `parseInt` reads back. */
  lemma ReportRowsSpec(column: string, cs: seq<Count>, i: nat)
    requires column != CANTIDAD && i < |cs|
    ensures Get(ReportRows(column, cs)[i], column) == Some(cs[i].key)
    ensures ParseInt(Str(Get(ReportRows(column, cs)[i], CANTIDAD))) == Some(cs[i].n)
  {
    var row := ReportRows(column, cs)[i];
    assert row == ReportRow(column)(cs[i]);
    assert Get(row, CANTIDAD) == Some(DecimalText(cs[i].n)) by {
      assert row.fields[1..] == [Field(CANTIDAD, DecimalText(cs[i].n))];
    }
    ParseIntDecimal(cs[i].n);
  }

  function ThematicKey(item: Item): string { Str(Get(item, TEMATICA)) }

  /** `parseInt(a) - parseInt(b)` read as "a sorts before b": a smaller week
      number first; a comparison with `NaN` is a tie. */
  predicate WeekCountBefore(a: Count, b: Count) {
    ParseInt(a.key).Some? && ParseInt(b.key).Some? && ParseInt(a.key).value < ParseInt(b.key).value
  }

  lemma WeekCountBeforeStrictOrder()
    ensures StrictOrder(WeekCountBefore)
  {
  }

  method GenerateStatesReport(data: seq<Item>) returns (rows: seq<Item>)
    ensures rows == ReportRows(ESTADO, Tally(data, StateKey))
  {
    var counts := CountEach(data, StateKey);
    rows := ReportRows(ESTADO, counts);
  }

  method GenerateThematicsReport(data: seq<Item>) returns (rows: seq<Item>)
    ensures rows == ReportRows(TEMATICA, Tally(data, ThematicKey))
  {
    var counts := CountEach(data, ThematicKey);
    rows := ReportRows(TEMATICA, counts);
  }

  method GenerateWeeksReport(data: seq<Item>) returns (rows: seq<Item>)
    ensures rows == ReportRows(SEMANA, SortBy(Tally(data, WeekKey), WeekCountBefore))
  {
    var counts := CountEach(data, WeekKey);
    rows := ReportRows(SEMANA, SortBy(counts, WeekCountBefore));
  }

  /** `peopleCount[person]++` for every role someone holds. */
  method GeneratePeopleReport(data: seq<Item>) returns (rows: seq<Item>)
    ensures rows == ReportRows("Persona", Tally(Contributions(data), PersonOf))
  {
    var counts := [];
    var i := 0;
    while i < |data|
      invariant 0 <= i <= |data|
      invariant counts == Tally(Contributions(data[..i]), PersonOf)
    {
      RecordStep(data, i);
      counts := CountRecordPeople(counts, RoleValues(data[i]), StateKey(data[i]), Contributions(data[..i]));
      i := i + 1;
    }
    assert data[..i] == data;
    rows := ReportRows("Persona", counts);
  }

  /** The inner `forEach` over one record's three roles. */
  method CountRecordPeople(c0: seq<Count>, vs: seq<Option<string>>, state: string, ghost done: seq<Contribution>)
    returns (counts: seq<Count>)
    requires c0 == Tally(done + HolderContributions(vs[..0], state), PersonOf)
    ensures counts == Tally(done + HolderContributions(vs, state), PersonOf)
  {
    counts := c0;
    var j := 0;
    while j < |vs|
      invariant 0 <= j <= |vs|
      invariant counts == Tally(done + HolderContributions(vs[..j], state), PersonOf)
    {
      PersonCountStep(done, vs, j, state);
      if IsRoleHolder(vs[j]) {
        counts := Increment(counts, vs[j].value);
      }
      j := j + 1;
    }
    assert vs[..j] == vs;
  }

  /** One role of one record more. */
  lemma PersonCountStep(done: seq<Contribution>, vs: seq<Option<string>>, j: nat, state: string)
    requires j < |vs|
    ensures Tally(done + HolderContributions(vs[..j + 1], state), PersonOf)
            == if IsRoleHolder(vs[j]) then Increment(Tally(done + HolderContributions(vs[..j], state), PersonOf), vs[j].value)
               else Tally(done + HolderContributions(vs[..j], state), PersonOf)
  {
    var before := done + HolderContributions(vs[..j], state);
    assert vs[..j + 1][..j] == vs[..j];
    if IsRoleHolder(vs[j]) {
      TallyStep(before, Contribution(vs[j].value, state), PersonOf);
      assert before + [Contribution(vs[j].value, state)] == done + HolderContributions(vs[..j + 1], state);
    } else {
      assert before == done + HolderContributions(vs[..j + 1], state);
    }
  }

  /** The counts of a report add up to the records counted: every record for
      states, themes and weeks, every role held for people; the week rows run
      from the smallest week number up. */
  lemma ReportTotals(data: seq<Item>)
    ensures Total(Tally(data, StateKey)) == |data|
    ensures Total(Tally(data, ThematicKey)) == |data|
    ensures Total(SortBy(Tally(data, WeekKey), WeekCountBefore)) == |data|
    ensures Total(Tally(Contributions(data), PersonOf)) == |Contributions(data)| <= 3 * |data|
    ensures NoInversions(SortBy(Tally(data, WeekKey), WeekCountBefore), WeekCountBefore)
  {
    TallyTotal(data, StateKey);
    TallyTotal(data, ThematicKey);
    TallyTotal(data, WeekKey);
    SortByTotal(Tally(data, WeekKey), WeekCountBefore);
    TallyTotal(Contributions(data), PersonOf);
    WeekCountBeforeStrictOrder();
    SortByNoInversions(Tally(data, WeekKey), WeekCountBefore);
  }

  lemma {:induction false} InsertTotal(x: Count, r: seq<Count>, lt: (Count, Count) -> bool)
    ensures Total(Insert(x, r, lt)) == x.n + Total(r)
    decreases |r|
  {
    if r != [] && !lt(x, r[0]) {
      InsertTotal(x, r[1..], lt);
      assert Insert(x, r, lt)[1..] == Insert(x, r[1..], lt);
    } else if r != [] {
      assert Insert(x, r, lt)[1..] == r;
    }
  }

  /** Sorting the rows keeps their total. */
  lemma {:induction false} SortByTotal(cs: seq<Count>, lt: (Count, Count) -> bool)
    ensures Total(SortBy(cs, lt)) == Total(cs)
    decreases |cs|
  {
    if cs != [] {
      var init, last := cs[..|cs| - 1], cs[|cs| - 1];
      var sorted := SortBy(init, lt);
      assert SortBy(cs, lt) == Insert(last, sorted, lt);
      SortByTotal(init, lt);
      InsertTotal(last, sorted, lt);
      assert Total(SortBy(cs, lt)) == last.n + Total(init);
      TotalLast(cs);
    }
  }

  lemma {:induction false} TotalLast(cs: seq<Count>)
    requires cs != []
    ensures Total(cs) == Total(cs[..|cs| - 1]) + cs[|cs| - 1].n
    decreases |cs|
  {
    if |cs| > 1 {
      TotalLast(cs[1..]);
      assert cs[1..][..|cs| - 2] == cs[..|cs| - 1][1..];
    }
  }

  /** `generateReportData`: the report of the named kind, the records
      themselves for any other name. */
  method GenerateReportData(data: seq<Item>, reportType: string) returns (r: seq<Item>)
    ensures reportType == "estados" ==> r == ReportRows(ESTADO, Tally(data, StateKey))
    ensures reportType == "personas" ==> r == ReportRows("Persona", Tally(Contributions(data), PersonOf))
    ensures reportType == "tematicas" ==> r == ReportRows(TEMATICA, Tally(data, ThematicKey))
    ensures reportType == "semanas" ==> r == ReportRows(SEMANA, SortBy(Tally(data, WeekKey), WeekCountBefore))
    ensures reportType !in {"estados", "personas", "tematicas", "semanas"} ==> r == data
  {
    if reportType == "estados" {
      r := GenerateStatesReport(data);
    } else if reportType == "personas" {
      r := GeneratePeopleReport(data);
    } else if reportType == "tematicas" {
      r := GenerateThematicsReport(data);
    } else if reportType == "semanas" {
      r := GenerateWeeksReport(data);
    } else {
      r := data;
    }
  }

  // ---------------------------------------------------------------------------
  // generateSummaryData

  datatype SummaryData = SummaryData(total: nat, adc: nat, pac: nat, incorporated: nat, editorial: nat,
                                     completionRate: nat)

  /** The header counts plus the incorporated share, rounded, 0 with no records. */
  function GenerateSummaryData(data: seq<Item>): (s: SummaryData)
    ensures s.total == |data|
    ensures s.adc + s.pac <= s.total && s.incorporated + s.editorial <= s.total
    ensures s.completionRate <= 100
    ensures s.total == 0 ==> s.completionRate == 0
    ensures s.total > 0 && s.incorporated == s.total ==> s.completionRate == 100
  {
    var st := GetCurrentStats(data);
    RoundedPercentBounds(st.incorporated, st.total);
    SummaryData(st.total, st.adc, st.pac, st.incorporated, st.editorial, RoundedPercent(st.incorporated, st.total))
  }

  /** The summary's rate is the completion statistics' rate. */
  lemma SummaryRateIsCompletionRate(data: seq<Item>)
    ensures GenerateSummaryData(data).completionRate == CalculateCompletionStats(data).completionRate
  {
    CurrentStatsAgreeWithAnalysis(data);
  }
}
