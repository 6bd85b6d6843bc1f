/** The weekly evolution chart and its projection table (`updateEvolutionChart`
    and `generateEvolutionDataTable`).

    For each week 23..35 the chart shows how many records of that week's latest
    report day are "Incorporada" and "En revisor editorial", and the cumulative
    number of distinct questions whose latest reported state, up to that week,
    is one of those two, capped at the goal. The table then projects a constant
    weekly increment from the last week with data so that week 35 reaches the
    goal. */
module EvolutionChart {
  import opened Wrappers
  import opened Text
  import opened Seqs
  import opened Items
  import Config

  const START_WEEK: int := 23
  const END_WEEK: int := 35
  const TARGET_WEEK: int := 35

  /** `allWeeksInRange`: the weeks on the x axis. */
  function AllWeeks(): (ws: seq<int>)
    ensures |ws| == END_WEEK - START_WEEK + 1
    ensures forall i :: 0 <= i < |ws| ==> ws[i] == START_WEEK + i
  {
    seq(END_WEEK - START_WEEK + 1, i => START_WEEK + i)
  }

  /** `META_TOTAL_ITEMS` for the document filter: any value other than
      'ADC' and 'PAC' uses the overall goal. */
  function Goal(filterType: string): (g: nat)
    ensures g > 0
  {
    if filterType == PAC then Config.META_PAC
    else if filterType == ADC then Config.META_ADC
    else Config.META_TOTAL
  }

  /** The records the chart works on: one document's records for 'ADC' and
      'PAC', all records otherwise. */
  function FilterByType(data: seq<Item>, filterType: string): seq<Item> {
    if filterType == ADC then Filter(data, x => HasDocument(x, ADC))
    else if filterType == PAC then Filter(data, x => HasDocument(x, PAC))
    else data
  }

  /** The 'ADC' and 'PAC' filters keep exactly that document's records; any
      other filter keeps everything. */
  lemma FilterByTypeMembers(data: seq<Item>, filterType: string)
    ensures filterType == ADC || filterType == PAC ==>
              forall x :: x in FilterByType(data, filterType) <==> x in data && HasDocument(x, filterType)
    ensures filterType != ADC && filterType != PAC ==> FilterByType(data, filterType) == data
  {
    FilterMembers(data, x => HasDocument(x, ADC));
    FilterMembers(data, x => HasDocument(x, PAC));
  }

  // ---------------------------------------------------------------------------
  // what the chart reads of a record

  /** `parseInt(item.Semana)`. */
  function WeekOf(r: Item): Option<int> {
    ParseInt(Str(Get(r, SEMANA)))
  }

  /** The value of a decimal digit character. */
  function Digit(c: char): int {
    c as int - '0' as int
  }

  /** The text has the 'YYYY-MM-DD' shape: ten characters, digits except for
      the two dashes. */
  predicate IsIsoDateShape(s: string) {
    && |s| == 10
    && IsDecDigit(s[0]) && IsDecDigit(s[1]) && IsDecDigit(s[2]) && IsDecDigit(s[3])
    && s[4] == '-' && IsDecDigit(s[5]) && IsDecDigit(s[6])
    && s[7] == '-' && IsDecDigit(s[8]) && IsDecDigit(s[9])
  }

  /** Leap years of the proleptic Gregorian calendar that `Date` uses. */
  predicate IsLeapYear(year: int) {
    (year % 4 == 0 && year % 100 != 0) || year % 400 == 0
  }

  /** The number of days of a month (1..12) of a year. */
  function DaysInMonth(year: int, month: int): (n: int)
    requires 1 <= month <= 12
    ensures 28 <= n <= 31
    ensures n == 29 <==> month == 2 && IsLeapYear(year)
  {
    if month == 2 then (if IsLeapYear(year) then 29 else 28)
    else if month == 4 || month == 6 || month == 9 || month == 11 then 30
    else 31
  }

  /** The day number `Y*10000+M*100+D` gives back its year, month and day. */
  lemma DayNumberParts(year: int, month: int, day: int)
    requires 0 <= year && 1 <= month <= 12 && 1 <= day <= 31
    ensures (year * 10000 + month * 100 + day) / 10000 == year
    ensures (year * 10000 + month * 100 + day) / 100 % 100 == month
    ensures (year * 10000 + month * 100 + day) % 100 == day
  {
    var n := year * 10000 + month * 100 + day;
    assert n == (year * 100 + month) * 100 + day;
    assert n / 100 == year * 100 + month;
    assert n == year * 10000 + (month * 100 + day);
  }

  /** The year, month and day written in a 'YYYY-MM-DD' text. */
  function IsoYear(s: string): (y: int)
    requires IsIsoDateShape(s)
    ensures 0 <= y <= 9999
  {
    Digit(s[0]) * 1000 + Digit(s[1]) * 100 + Digit(s[2]) * 10 + Digit(s[3])
  }

  function IsoMonth(s: string): (m: int)
    requires IsIsoDateShape(s)
    ensures 0 <= m <= 99
  {
    Digit(s[5]) * 10 + Digit(s[6])
  }

  function IsoDay(s: string): (d: int)
    requires IsIsoDateShape(s)
    ensures 0 <= d <= 99
  {
    Digit(s[8]) * 10 + Digit(s[9])
  }

  /** The text names a day of the calendar: a month 1..12 and a day within it. */
  predicate IsCalendarDate(s: string) {
    IsIsoDateShape(s) && 1 <= IsoMonth(s) <= 12 && 1 <= IsoDay(s) <= DaysInMonth(IsoYear(s), IsoMonth(s))
  }

  /** `new Date(s)` for a 'YYYY-MM-DD' text, as a day number `Y*10000+M*100+D`;
      `None` is an Invalid Date (whose time value is `NaN`), which is also
      what a month or a day outside the calendar gives. */
  function ParseIsoDate(s: string): (r: Option<int>)
    ensures r.Some? <==> IsCalendarDate(s)
    ensures r.Some? ==>
              var month := r.value / 100 % 100;
              && r.value / 10000 == IsoYear(s) && month == IsoMonth(s) && r.value % 100 == IsoDay(s)
              && 1 <= month <= 12 && 1 <= r.value % 100 <= DaysInMonth(r.value / 10000, month)
  {
    if IsCalendarDate(s) then
      DayNumberParts(IsoYear(s), IsoMonth(s), IsoDay(s));
      Some(IsoYear(s) * 10000 + IsoMonth(s) * 100 + IsoDay(s))
    else None
  }

  /** A day past the end of its month is an Invalid Date, and 29 February is
      a date only in a leap year. */
  lemma CalendarDays()
    ensures ParseIsoDate("2023-02-29") == None
    ensures ParseIsoDate("2023-04-31") == None
    ensures ParseIsoDate("2024-02-29") == Some(20240229)
    ensures ParseIsoDate("2023-03-01") == Some(20230301)
  {
    assert IsIsoDateShape("2023-02-29") && IsIsoDateShape("2023-04-31");
    assert IsIsoDateShape("2024-02-29") && IsIsoDateShape("2023-03-01");
  }

  /** `new Date(item.FechaReporte)`. */
  function ReportDay(r: Item): Option<int> {
    ParseIsoDate(Str(Get(r, FECHA_REPORTE)))
  }

  /** `item.ID_Corregido || item.ID`, as the text an object key makes of it. */
  function TrackedId(r: Item): string {
    OrElse(Get(r, ID_CORREGIDO), Str(Get(r, ID)))
  }

  /** The five things the chart reads of a record, each converted as the
      chart's expressions convert it: the question it tracks, its document,
      its state, its week and its report day. */
  datatype Report = Report(id: string, document: Option<string>, state: Option<string>,
                           week: Option<int>, day: Option<int>)

  function ReportOf(r: Item): Report {
    Report(TrackedId(r), Get(r, DOCUMENTO), Get(r, ESTADO), WeekOf(r), ReportDay(r))
  }

  /** The chart's view of each record, in order. */
  function Reports(data: seq<Item>): (rs: seq<Report>)
    ensures |rs| == |data|
    ensures forall i :: 0 <= i < |data| ==> rs[i] == ReportOf(data[i])
  {
    seq(|data|, i requires 0 <= i < |data| => ReportOf(data[i]))
  }

  /** `parseInt(item.Semana) === week`. */
  predicate InWeek(r: Report, week: int) {
    r.week == Some(week)
  }

  /** `parseInt(item.Semana) <= week`; false when the week is `NaN`. */
  predicate AtOrBefore(r: Report, week: int) {
    r.week.Some? && r.week.value <= week
  }

  /** `new Date(a.FechaReporte) < new Date(b.FechaReporte)`: false as soon as
      either date is invalid. */
  predicate ReportedBefore(a: Report, b: Report) {
    a.day.Some? && b.day.Some? && a.day.value < b.day.value
  }

  /** `records.filter(item => item.Estado === state).length`. */
  function CountIn(rs: seq<Report>, state: string): nat {
    |Filter(rs, (r: Report) => r.state == Some(state))|
  }

  /** Two different states are never counted for the same record. */
  lemma CountInDisjoint(rs: seq<Report>, a: string, b: string)
    requires a != b
    ensures CountIn(rs, a) + CountIn(rs, b) <= |rs|
  {
    FilterDisjoint(rs, (r: Report) => r.state == Some(a), (r: Report) => r.state == Some(b));
  }

  // ---------------------------------------------------------------------------
  // the latest report day of a week

  /** The records of one week. */
  function WeekRecords(rs: seq<Report>, week: int): seq<Report> {
    Filter(rs, r => InWeek(r, week))
  }

  /** `Math.max` over time values, `None` standing for `NaN`: `NaN` as soon
      as one value is `NaN`, otherwise the largest. */
  function MaxOf(ds: seq<Option<int>>): (d: Option<int>)
    requires |ds| > 0
    ensures d.None? <==> exists i :: 0 <= i < |ds| && ds[i].None?
    ensures d.Some? ==> forall i :: 0 <= i < |ds| ==> ds[i].Some? && ds[i].value <= d.value
    ensures exists i :: 0 <= i < |ds| && ds[i] == d
    decreases |ds|
  {
    var last := ds[|ds| - 1];
    if |ds| == 1 then last
    else
      var init := ds[..|ds| - 1];
      assert forall i :: 0 <= i < |init| ==> init[i] == ds[i];
      match (MaxOf(init), last)
      case (Some(a), Some(b)) => Some(if a < b then b else a)
      case (_, _) => None
  }

  /** The report days of the records, in order. */
  function Days(rs: seq<Report>): (ds: seq<Option<int>>)
    ensures |ds| == |rs|
  {
    seq(|rs|, i requires 0 <= i < |rs| => rs[i].day)
  }

  /** `Math.max(...weekData.map(item => new Date(item.FechaReporte)))`. */
  function LatestDay(rs: seq<Report>): Option<int>
    requires |rs| > 0
  {
    MaxOf(Days(rs))
  }

  /** The latest day is `NaN` exactly when some date is invalid, is otherwise
      no earlier than any report date, and is always some record's date. */
  lemma LatestDayIsMax(rs: seq<Report>)
    requires |rs| > 0
    ensures LatestDay(rs).None? <==> exists i :: 0 <= i < |rs| && rs[i].day.None?
    ensures LatestDay(rs).Some? ==> forall i :: 0 <= i < |rs| ==>
              rs[i].day.Some? && rs[i].day.value <= LatestDay(rs).value
    ensures exists i :: 0 <= i < |rs| && rs[i].day == LatestDay(rs)
  {
    var ds := Days(rs);
    assert forall i :: 0 <= i < |rs| ==> ds[i] == rs[i].day;
    var d := MaxOf(ds);
    var j :| 0 <= j < |ds| && ds[j] == d;
    assert rs[j].day == d;
  }

  /** `latestDayData`: the records whose date shows the same day as the
      latest one (`toDateString` equality; all invalid dates show alike). */
  function LatestDayRecords(rs: seq<Report>): seq<Report>
    requires |rs| > 0
  {
    var d := LatestDay(rs);
    Filter(rs, (x: Report) => x.day == d)
  }

  /** The latest day's records are the records dated that day, and there is
      at least one. */
  lemma LatestDayRecordsMembers(rs: seq<Report>)
    requires |rs| > 0
    ensures 0 < |LatestDayRecords(rs)| <= |rs|
    ensures forall x :: x in LatestDayRecords(rs) <==> x in rs && x.day == LatestDay(rs)
  {
    var d := LatestDay(rs);
    FilterMembers(rs, (x: Report) => x.day == d);
    LatestDayIsMax(rs);
    var i :| 0 <= i < |rs| && rs[i].day == d;
    assert rs[i] in LatestDayRecords(rs);
  }

  /** The number of records of the week's latest day in 'Incorporada';
      `None` (`null`) for a week without records. */
  function IncorporatedAt(rs: seq<Report>, week: int): Option<nat> {
    var wr := WeekRecords(rs, week);
    if wr == [] then None else Some(CountIn(LatestDayRecords(wr), INCORPORADA))
  }

  /** The same for 'En revisor editorial'. */
  function EditorialAt(rs: seq<Report>, week: int): Option<nat> {
    var wr := WeekRecords(rs, week);
    if wr == [] then None else Some(CountIn(LatestDayRecords(wr), EN_REVISOR_EDITORIAL))
  }

  /** `totalUpToWeek` for a week with records, `null` otherwise. */
  function TotalAt(rs: seq<Report>, week: int, goal: nat): Option<nat> {
    if WeekRecords(rs, week) == [] then None else Some(CumulativeTotal(rs, week, goal))
  }

  /** A week's point is missing exactly when no record belongs to it; when it
      is present, the two counts share the records of one day, and the
      cumulative total stays within the goal. */
  lemma WeekPoint(rs: seq<Report>, week: int, goal: nat)
    ensures IncorporatedAt(rs, week).None? <==> forall r :: r in rs ==> !InWeek(r, week)
    ensures EditorialAt(rs, week).None? == IncorporatedAt(rs, week).None?
    ensures TotalAt(rs, week, goal).None? == IncorporatedAt(rs, week).None?
    ensures IncorporatedAt(rs, week).Some? ==>
              IncorporatedAt(rs, week).value + EditorialAt(rs, week).value
              <= |LatestDayRecords(WeekRecords(rs, week))|
              <= |WeekRecords(rs, week)|
    ensures TotalAt(rs, week, goal).Some? ==> TotalAt(rs, week, goal).value <= goal
  {
    var wr := WeekRecords(rs, week);
    FilterMembers(rs, r => InWeek(r, week));
    if wr != [] {
      CumulativeTotalBounds(rs, week, goal);
      LatestDayRecordsMembers(wr);
      CountInDisjoint(LatestDayRecords(wr), INCORPORADA, EN_REVISOR_EDITORIAL);
    } else {
      forall r | r in rs ensures !InWeek(r, week) {
        assert r !in wr;
      }
    }
  }

  // ---------------------------------------------------------------------------
  // the latest state of each question

  /** One step of the `forEach`: a record replaces the kept one of its
      question only when none is kept yet or the kept one's date is strictly
      earlier, so on equal dates the earlier record stays. */
  function Keep(m: map<string, Report>, r: Report): map<string, Report> {
    if r.id !in m || ReportedBefore(m[r.id], r) then m[r.id := r] else m
  }

  /** `latestStatesByID` after the `forEach` over `rs`. */
  function LatestStates(rs: seq<Report>): map<string, Report>
    decreases |rs|
  {
    if rs == [] then map[] else Keep(LatestStates(rs[..|rs| - 1]), rs[|rs| - 1])
  }

  /** Every question of `rs` is kept once, by one of its own records, and no
      record of that question is strictly later than the kept one. */
  lemma {:induction false} LatestStatesSound(rs: seq<Report>)
    ensures forall r :: r in rs ==> r.id in LatestStates(rs)
    ensures forall k :: k in LatestStates(rs) ==>
              LatestStates(rs)[k] in rs && LatestStates(rs)[k].id == k
    ensures forall r :: r in rs ==> !ReportedBefore(LatestStates(rs)[r.id], r)
    ensures |LatestStates(rs)| <= |rs|
    decreases |rs|
  {
    if rs != [] {
      var init := rs[..|rs| - 1];
      var x := rs[|rs| - 1];
      assert rs == init + [x];
      LatestStatesSound(init);
      var m0 := LatestStates(init);
      var m := LatestStates(rs);
      assert m == Keep(m0, x);
      if x.id !in m0 || ReportedBefore(m0[x.id], x) {
        forall r | r in rs ensures !ReportedBefore(m[r.id], r) {
          if r != x && r.id == x.id {
            assert r in init;
            assert !ReportedBefore(m0[x.id], r);
          }
        }
      }
    }
  }

  /** The fact of `LatestStatesSound` about one record. */
  lemma LatestStatesCovers(rs: seq<Report>, r: Report)
    requires r in rs
    ensures r.id in LatestStates(rs)
    ensures !ReportedBefore(LatestStates(rs)[r.id], r)
  {
    LatestStatesSound(rs);
  }

  /** A record that replaces the kept one of its question is strictly later
      than every earlier record of that question with a valid date. */
  lemma ReplacingIsLater(rs: seq<Report>, x: Report)
    requires x.day.Some?
    requires x.id !in LatestStates(rs) || ReportedBefore(LatestStates(rs)[x.id], x)
    ensures forall i :: 0 <= i < |rs| && rs[i].id == x.id && rs[i].day.Some? ==>
              rs[i].day.value < x.day.value
  {
    forall i | 0 <= i < |rs| && rs[i].id == x.id && rs[i].day.Some?
      ensures rs[i].day.value < x.day.value
    {
      LatestStatesCovers(rs, rs[i]);
    }
  }

  /** When every date is valid, the kept record of a question is the first of
      its records on the latest day: every earlier record of the question is
      strictly older. */
  lemma {:induction false} LatestStatesFirstOnTies(rs: seq<Report>, k: string) returns (j: nat)
    requires forall r :: r in rs ==> r.day.Some?
    requires k in LatestStates(rs)
    ensures j < |rs| && rs[j] == LatestStates(rs)[k]
    ensures forall i :: 0 <= i < j && rs[i].id == k ==> rs[i].day.value < rs[j].day.value
    decreases |rs|
  {
    if rs == [] {
      assert false;
    }
    var init := rs[..|rs| - 1];
    var x := rs[|rs| - 1];
    assert rs == init + [x];
    var m0 := LatestStates(init);
    if x.id == k && (k !in m0 || ReportedBefore(m0[k], x)) {
      j := |rs| - 1;
      ReplacingIsLater(init, x);
    } else {
      assert k in m0 && LatestStates(rs)[k] == m0[k];
      j := LatestStatesFirstOnTies(init, k);
    }
  }

  /** The number of kept records whose state is `state`. */
  function CountLatest(m: map<string, Report>, state: string): nat {
    |set k | k in m && m[k].state == Some(state)|
  }

  /** `totalIncorporatedUpToWeek + totalEditorialUpToWeek` of the kept records. */
  function Tracked(m: map<string, Report>): nat {
    CountLatest(m, INCORPORADA) + CountLatest(m, EN_REVISOR_EDITORIAL)
  }

  /** A kept question is counted at most once: it has one state. */
  lemma TrackedAtMostKept(m: map<string, Report>)
    ensures Tracked(m) <= |m|
  {
    var a := set k | k in m && m[k].state == Some(INCORPORADA);
    var b := set k | k in m && m[k].state == Some(EN_REVISOR_EDITORIAL);
    assert a * b == {};
    CardinalityOfSubset(a + b, m.Keys);
  }

  lemma CardinalityOfSubset<K>(a: set<K>, b: set<K>)
    requires a <= b
    ensures |a| <= |b|
  {
    assert b == a + (b - a);
  }

  /** The records of weeks up to `week`. */
  function UpToWeek(rs: seq<Report>, week: int): seq<Report> {
    Filter(rs, r => AtOrBefore(r, week))
  }

  /** `Math.min(totalUpToWeek, META_TOTAL_ITEMS)`: distinct questions whose
      latest state up to `week` is incorporated or in editorial review, capped
      at the goal. */
  function CumulativeTotal(rs: seq<Report>, week: int, goal: nat): nat {
    var n := Tracked(LatestStates(UpToWeek(rs, week)));
    if n < goal then n else goal
  }

  /** The cumulative total never exceeds the goal nor the number of
      distinct questions reported up to the week, which in turn is at most
      the number of those records. */
  lemma CumulativeTotalBounds(rs: seq<Report>, week: int, goal: nat)
    ensures CumulativeTotal(rs, week, goal) <= goal
    ensures CumulativeTotal(rs, week, goal) <= |LatestStates(UpToWeek(rs, week))|
    ensures |LatestStates(UpToWeek(rs, week))| <= |UpToWeek(rs, week)| <= |rs|
  {
    TrackedAtMostKept(LatestStates(UpToWeek(rs, week)));
    LatestStatesSound(UpToWeek(rs, week));
  }

  /** The `forEach` that fills `latestStatesByID`. */
  method LatestStatesById(rs: seq<Report>) returns (m: map<string, Report>)
    ensures m == LatestStates(rs)
    ensures forall r :: r in rs ==> r.id in m && !ReportedBefore(m[r.id], r)
    ensures forall k :: k in m ==> m[k] in rs && m[k].id == k
  {
    m := map[];
    for i := 0 to |rs|
      invariant m == LatestStates(rs[..i])
    {
      assert rs[..i + 1][..i] == rs[..i];
      var r := rs[i];
      if r.id !in m || ReportedBefore(m[r.id], r) {
        m := m[r.id := r];
      }
    }
    assert rs[..|rs|] == rs;
    LatestStatesSound(rs);
  }

  /** The cumulative total of a week, as each of its four copies in the
      source computes it. */
  method CumulativeTotalUpTo(rs: seq<Report>, week: int, goal: nat) returns (total: nat)
    ensures total == CumulativeTotal(rs, week, goal)
  {
    var latest := LatestStatesById(UpToWeek(rs, week));
    var n := Tracked(latest);
    total := if n < goal then n else goal;
  }

  // ---------------------------------------------------------------------------
  // the weekly series

  /** One iteration of the loop over the weeks: the week's two latest-day
      counts and its cumulative total, or three `null`s for a week without
      records. */
  method WeekPointOf(rs: seq<Report>, week: int, goal: nat)
    returns (incorporated: Option<nat>, editorial: Option<nat>, total: Option<nat>)
    ensures incorporated == IncorporatedAt(rs, week)
    ensures editorial == EditorialAt(rs, week)
    ensures total == TotalAt(rs, week, goal)
  {
    var weekData := WeekRecords(rs, week);
    if weekData == [] {
      incorporated, editorial, total := None, None, None;
    } else {
      var latestDayData := LatestDayRecords(weekData);
      var incorporatedCount := CountIn(latestDayData, INCORPORADA);
      var editorialCount := CountIn(latestDayData, EN_REVISOR_EDITORIAL);
      var totalUpToWeek := CumulativeTotalUpTo(rs, week, goal);
      incorporated, editorial, total := Some(incorporatedCount), Some(editorialCount), Some(totalUpToWeek);
    }
  }

  /** One point of the chart: the week's two latest-day counts and its
      cumulative total. */
  datatype Point = Point(incorporated: Option<nat>, editorial: Option<nat>, total: Option<nat>)

  function PointAt(rs: seq<Report>, week: int, goal: nat): Point {
    Point(IncorporatedAt(rs, week), EditorialAt(rs, week), TotalAt(rs, week, goal))
  }

  /** The points of the given weeks, in order. */
  function Series(rs: seq<Report>, weeks: seq<int>, goal: nat): (ps: seq<Point>)
    ensures |ps| == |weeks|
    decreases |weeks|
  {
    if weeks == [] then [] else Series(rs, weeks[..|weeks| - 1], goal) + [PointAt(rs, weeks[|weeks| - 1], goal)]
  }

  /** Each point of the series is the point of its week. */
  lemma {:induction false} SeriesAt(rs: seq<Report>, weeks: seq<int>, goal: nat)
    ensures forall i :: 0 <= i < |weeks| ==> Series(rs, weeks, goal)[i] == PointAt(rs, weeks[i], goal)
    decreases |weeks|
  {
    if weeks != [] {
      SeriesAt(rs, weeks[..|weeks| - 1], goal);
    }
  }

  /** Three parallel series as one sequence of points. */
  function Zip(incorporated: seq<Option<nat>>, editorial: seq<Option<nat>>, total: seq<Option<nat>>): (ps: seq<Point>)
    requires |incorporated| == |editorial| == |total|
    ensures |ps| == |incorporated|
  {
    seq(|incorporated|, i requires 0 <= i < |incorporated| => Point(incorporated[i], editorial[i], total[i]))
  }

  /** The loop over `allWeeksInRange` that fills `incorporatedCounts`,
      `editorialCounts` and `totalProgress`. */
  method WeeklySeries(rs: seq<Report>, goal: nat)
    returns (incorporated: seq<Option<nat>>, editorial: seq<Option<nat>>, total: seq<Option<nat>>)
    ensures |incorporated| == |editorial| == |total| == |AllWeeks()|
    ensures Zip(incorporated, editorial, total) == Series(rs, AllWeeks(), goal)
  {
    var weeks := AllWeeks();
    incorporated, editorial, total := [], [], [];
    for i := 0 to |weeks|
      invariant |incorporated| == |editorial| == |total| == i
      invariant Zip(incorporated, editorial, total) == Series(rs, weeks[..i], goal)
    {
      var inc, ed, tot := WeekPointOf(rs, weeks[i], goal);
      assert weeks[..i + 1][..i] == weeks[..i];
      incorporated, editorial, total := incorporated + [inc], editorial + [ed], total + [tot];
    }
    assert weeks[..|weeks|] == weeks;
  }

  // ---------------------------------------------------------------------------
  // the projection table

  datatype EvolutionTable = EvolutionTable(
    lastDataWeekIndex: int,
    lastWeekTotal: nat,
    weeklyProjection: nat,
    projectedIncrements: seq<Option<int>>,
    accumulatedTotals: seq<int>)

  /** `targetWeek - lastDataWeek`, with the week before the first standing
      for "no week has data"; `None` (`NaN`) when there are no weeks at all. */
  function WeeksForProjection(weeks: seq<int>, lastIndex: int): Option<int>
    requires -1 <= lastIndex < |weeks|
  {
    if lastIndex >= 0 then Some(TARGET_WEEK - weeks[lastIndex])
    else if |weeks| > 0 then Some(TARGET_WEEK - (weeks[0] - 1))
    else None
  }

  /** `Math.ceil(a / k)` for a positive `k`: the number of steps of `k`
      that cover `a`. */
  function CeilDiv(a: int, k: int): nat
    requires k > 0
    decreases if a > 0 then a else 0
  {
    if a <= 0 then 0 else 1 + CeilDiv(a - k, k)
  }

  /** For positive `a`, `CeilDiv` is the least count of `k`s that reaches `a`. */
  lemma {:induction false} CeilDivIsCeiling(a: int, k: int)
    requires k > 0 && a > 0
    ensures CeilDiv(a, k) * k >= a
    ensures (CeilDiv(a, k) - 1) * k < a
    decreases a
  {
    if a - k > 0 {
      CeilDivIsCeiling(a - k, k);
      var q := CeilDiv(a - k, k);
      assert (q + 1) * k == q * k + k;
      assert (q + 1 - 1) * k == (q - 1) * k + k;
    }
  }

  /** `weeklyProjection`: `Math.ceil(itemsToProject / weeksForProjection)`
      when both are positive, else 0. */
  function WeeklyProjection(weeksLeft: Option<int>, itemsToProject: int): nat {
    match weeksLeft
    case Some(k) => if k > 0 && itemsToProject > 0 then CeilDiv(itemsToProject, k) else 0
    case None => 0
  }

  /** The weekly projection is the ceiling of the quotient: the least weekly
      amount that covers the remaining items in the remaining weeks. */
  lemma WeeklyProjectionIsCeiling(k: int, items: int)
    requires k > 0 && items > 0
    ensures WeeklyProjection(Some(k), items) * k >= items
    ensures (WeeklyProjection(Some(k), items) - 1) * k < items
  {
    CeilDivIsCeiling(items, k);
  }

  /** The increment of one projected week: the weekly amount while the
      running total is below the goal, clipped so the projected sum never
      passes `itemsToProject`, and never negative. */
  function Increment(weekly: int, itemsToProject: int, goal: int, running: int, done: int): int {
    if running < goal then
      var c := if done + weekly > itemsToProject then itemsToProject - done else weekly;
      if c < 0 then 0 else c
    else 0
  }

  /** `totalProjectedIncrement` after `t` projected weeks starting from the
      cumulative total `start`; the running total is always `start` plus it. */
  function ProjectedSoFar(t: nat, weekly: int, itemsToProject: int, goal: int, start: int): int {
    if t == 0 then 0
    else
      var d := ProjectedSoFar(t - 1, weekly, itemsToProject, goal, start);
      d + Increment(weekly, itemsToProject, goal, start + d, d)
  }

  /** The increment of projected week number `t` (from 0). */
  function IncrementAt(t: nat, weekly: int, itemsToProject: int, goal: int, start: int): int {
    var d := ProjectedSoFar(t, weekly, itemsToProject, goal, start);
    Increment(weekly, itemsToProject, goal, start + d, d)
  }

  /** Projecting from a total `start` within the goal, with
      `itemsToProject == goal - start`, adds `weekly` per week until the goal
      is met and then nothing: after `t` weeks exactly
      `min(itemsToProject, weekly * t)` has been projected. */
  lemma {:induction false} ProjectedSoFarClosedForm(t: nat, weekly: nat, itemsToProject: int, goal: int, start: int)
    requires 0 <= itemsToProject && start + itemsToProject == goal
    ensures ProjectedSoFar(t, weekly, itemsToProject, goal, start) == Min(itemsToProject, weekly * t)
  {
    if t > 0 {
      ProjectedSoFarClosedForm(t - 1, weekly, itemsToProject, goal, start);
      assert weekly * t == weekly * (t - 1) + weekly;
    }
  }

  function Min(a: int, b: int): int { if a < b then a else b }

  /** Each projected increment lies between 0 and the weekly amount. */
  lemma IncrementAtBounds(t: nat, weekly: nat, itemsToProject: int, goal: int, start: int)
    requires 0 <= itemsToProject && start + itemsToProject == goal
    ensures 0 <= IncrementAt(t, weekly, itemsToProject, goal, start) <= weekly
  {
    ProjectedSoFarClosedForm(t, weekly, itemsToProject, goal, start);
    ProjectedSoFarClosedForm(t + 1, weekly, itemsToProject, goal, start);
    assert weekly * (t + 1) == weekly * t + weekly;
  }

  /** "Total acumulado proyectado": the last accumulated total, or the last
      real total when that is 0 or missing. */
  function ProjectedFinal(t: EvolutionTable): nat {
    var acc := t.accumulatedTotals;
    if |acc| > 0 && acc[|acc| - 1] > 0 then acc[|acc| - 1] else t.lastWeekTotal
  }

  /** The backward search for the last week whose incorporated or editorial
      count is not `null`; -1 when there is none. */
  method LastDataWeekIndex(incorporated: seq<Option<nat>>, editorial: seq<Option<nat>>) returns (idx: int)
    requires |incorporated| == |editorial|
    ensures -1 <= idx < |incorporated|
    ensures idx >= 0 ==> incorporated[idx].Some? || editorial[idx].Some?
    ensures forall j :: idx < j < |incorporated| ==> incorporated[j].None? && editorial[j].None?
  {
    idx := -1;
    var i := |incorporated| - 1;
    while i >= 0
      invariant -1 <= i < |incorporated|
      invariant forall j :: i < j < |incorporated| ==> incorporated[j].None? && editorial[j].None?
    {
      if incorporated[i].Some? || editorial[i].Some? {
        idx := i;
        break;
      }
      i := i - 1;
    }
  }

  /** The real cumulative total of each week. */
  function RealTotals(rs: seq<Report>, weeks: seq<int>, goal: nat): (r: seq<nat>)
    ensures |r| == |weeks|
  {
    seq(|weeks|, i requires 0 <= i < |weeks| => CumulativeTotal(rs, weeks[i], goal))
  }

  /** No real cumulative total exceeds the goal. */
  lemma RealTotalsWithinGoal(rs: seq<Report>, weeks: seq<int>, goal: nat)
    ensures forall i :: 0 <= i < |weeks| ==> RealTotals(rs, weeks, goal)[i] <= goal
  {
    forall i | 0 <= i < |weeks| ensures RealTotals(rs, weeks, goal)[i] <= goal {
      CumulativeTotalBounds(rs, weeks[i], goal);
    }
  }

  /** "Rellenar datos históricos": the real cumulative totals of the weeks up
      to the last one with data. */
  method HistoricalTotals(weeks: seq<int>, idx: int, filtered: seq<Report>, goal: nat) returns (accumulated: seq<int>)
    requires -1 <= idx < |weeks|
    ensures accumulated == RealTotals(filtered, weeks, goal)[..idx + 1]
  {
    ghost var realTotals := RealTotals(filtered, weeks, goal);
    accumulated := [];
    var i := 0;
    while i <= idx
      invariant 0 <= i <= idx + 1
      invariant accumulated == realTotals[..i]
    {
      var totalUpToWeek := CumulativeTotalUpTo(filtered, weeks[i], goal);
      assert realTotals[..i + 1] == realTotals[..i] + [realTotals[i]];
      accumulated := accumulated + [totalUpToWeek];
      i := i + 1;
    }
  }

  /** "Rellenar datos proyectados": `n` projected weeks from the cumulative
      total `start`, giving each week's increment and running total. */
  method ProjectWeeks(n: nat, weekly: nat, itemsToProject: int, goal: int, start: int)
    returns (increments: seq<int>, totals: seq<int>)
    ensures |increments| == n && |totals| == n
    ensures forall j :: 0 <= j < n ==>
              && increments[j] == IncrementAt(j, weekly, itemsToProject, goal, start)
              && totals[j] == start + ProjectedSoFar(j + 1, weekly, itemsToProject, goal, start)
  {
    increments, totals := [], [];
    var runningTotal := start;
    var totalProjectedIncrement := 0;
    for w := 0 to n
      invariant |increments| == w && |totals| == w
      invariant totalProjectedIncrement == ProjectedSoFar(w, weekly, itemsToProject, goal, start)
      invariant runningTotal == start + totalProjectedIncrement
      invariant forall j :: 0 <= j < w ==>
                  && increments[j] == IncrementAt(j, weekly, itemsToProject, goal, start)
                  && totals[j] == start + ProjectedSoFar(j + 1, weekly, itemsToProject, goal, start)
    {
      var increment := 0;
      if runningTotal < goal {
        increment := weekly;
        if totalProjectedIncrement + increment > itemsToProject {
          increment := itemsToProject - totalProjectedIncrement;
        }
        if increment < 0 {
          increment := 0;
        }
      }
      increments := increments + [increment];
      totalProjectedIncrement := totalProjectedIncrement + increment;
      runningTotal := runningTotal + increment;
      totals := totals + [runningTotal];
    }
  }

  /** What the projection promises about its rows, from a real total within
      the goal: every running total stays within the goal, every increment
      lies between 0 and the weekly amount, the totals never decrease, and
      the last one is the goal once `n` weekly amounts cover what is left. */
  lemma ProjectionRows(n: nat, weekly: nat, itemsToProject: int, goal: int, start: int)
    requires 0 <= start && 0 <= itemsToProject && start + itemsToProject == goal
    ensures forall j :: 0 <= j < n ==>
              0 <= IncrementAt(j, weekly, itemsToProject, goal, start) <= weekly
    ensures forall j :: 0 <= j <= n ==>
              start <= start + ProjectedSoFar(j, weekly, itemsToProject, goal, start) <= goal
    ensures forall j :: 0 <= j < n ==>
              ProjectedSoFar(j, weekly, itemsToProject, goal, start)
              <= ProjectedSoFar(j + 1, weekly, itemsToProject, goal, start)
    ensures weekly * n >= itemsToProject ==>
              start + ProjectedSoFar(n, weekly, itemsToProject, goal, start) == goal
  {
    forall j | 0 <= j < n
      ensures 0 <= IncrementAt(j, weekly, itemsToProject, goal, start) <= weekly
    {
      IncrementAtBounds(j, weekly, itemsToProject, goal, start);
    }
    forall j | 0 <= j <= n
      ensures start <= start + ProjectedSoFar(j, weekly, itemsToProject, goal, start) <= goal
    {
      ProjectedSoFarClosedForm(j, weekly, itemsToProject, goal, start);
    }
    ProjectedSoFarClosedForm(n, weekly, itemsToProject, goal, start);
  }

  /** The two rows of the table as they are filled from the real weekly
      totals `real`: up to the last week with data, no projected increment
      and the real total; after it, the projected increment of each week and
      the projected running total from the last real total. */
  ghost predicate TableRows(t: EvolutionTable, realTotals: seq<nat>, goal: nat) {
    var idx := t.lastDataWeekIndex;
    && -1 <= idx < |realTotals|
    && |t.projectedIncrements| == |realTotals| && |t.accumulatedTotals| == |realTotals|
    && (forall i :: 0 <= i <= idx ==> t.projectedIncrements[i].None? && t.accumulatedTotals[i] == realTotals[i])
    && (forall i :: idx < i < |realTotals| ==>
          && t.projectedIncrements[i]
             == Some(IncrementAt(i - idx - 1, t.weeklyProjection, goal - t.lastWeekTotal, goal, t.lastWeekTotal))
          && t.accumulatedTotals[i]
             == t.lastWeekTotal + ProjectedSoFar(i - idx, t.weeklyProjection, goal - t.lastWeekTotal, goal, t.lastWeekTotal))
  }

  /** The last real total and the weekly amount as the table computes them:
      the real total of the last week with data (0 when there is none) and
      the ceiling of what is left over the weeks left. */
  ghost predicate TableHead(t: EvolutionTable, weeks: seq<int>, realTotals: seq<nat>, goal: nat)
    requires |realTotals| == |weeks| && -1 <= t.lastDataWeekIndex < |weeks|
  {
    && t.lastWeekTotal == (if t.lastDataWeekIndex >= 0 then realTotals[t.lastDataWeekIndex] else 0)
    && t.weeklyProjection == WeeklyProjection(WeeksForProjection(weeks, t.lastDataWeekIndex),
                                              goal - t.lastWeekTotal)
  }

  /** A table filled this way from real totals within the goal. */
  ghost predicate ProjectedFrom(t: EvolutionTable, weeks: seq<int>, realTotals: seq<nat>, goal: nat) {
    && |realTotals| == |weeks|
    && TableRows(t, realTotals, goal)
    && TableHead(t, weeks, realTotals, goal)
    && (forall i :: 0 <= i < |realTotals| ==> realTotals[i] <= goal)
  }

  /** Every accumulated total lies within the goal. */
  lemma TableWithinGoal(t: EvolutionTable, weeks: seq<int>, realTotals: seq<nat>, goal: nat)
    requires ProjectedFrom(t, weeks, realTotals, goal)
    ensures forall i :: 0 <= i < |weeks| ==> 0 <= t.accumulatedTotals[i] <= goal
  {
    var start := t.lastWeekTotal;
    ProjectionRows(|weeks| - 1 - t.lastDataWeekIndex, t.weeklyProjection, goal - start, goal, start);
  }

  /** Every projected increment lies between 0 and the weekly amount. */
  lemma TableIncrementsBounded(t: EvolutionTable, weeks: seq<int>, realTotals: seq<nat>, goal: nat)
    requires ProjectedFrom(t, weeks, realTotals, goal)
    ensures forall i :: t.lastDataWeekIndex < i < |weeks| ==>
              0 <= t.projectedIncrements[i].value <= t.weeklyProjection
  {
    var start := t.lastWeekTotal;
    ProjectionRows(|weeks| - 1 - t.lastDataWeekIndex, t.weeklyProjection, goal - start, goal, start);
  }

  /** From the last real week on, the accumulated totals never decrease. */
  lemma TableNondecreasing(t: EvolutionTable, weeks: seq<int>, realTotals: seq<nat>, goal: nat)
    requires ProjectedFrom(t, weeks, realTotals, goal)
    ensures forall i :: 0 <= i && t.lastDataWeekIndex <= i < |weeks| - 1 ==>
              t.accumulatedTotals[i] <= t.accumulatedTotals[i + 1]
  {
    var start := t.lastWeekTotal;
    ProjectionRows(|weeks| - 1 - t.lastDataWeekIndex, t.weeklyProjection, goal - start, goal, start);
  }

  /** Over weeks 23..35, the last accumulated total is the goal whenever at
      least one week is projected, and so is the projected final total shown
      under the table. */
  lemma TableReachesGoal(t: EvolutionTable, weeks: seq<int>, realTotals: seq<nat>, goal: nat)
    requires ProjectedFrom(t, weeks, realTotals, goal)
    requires weeks == AllWeeks() && t.lastDataWeekIndex < |weeks| - 1
    ensures t.accumulatedTotals[|weeks| - 1] == goal
    ensures goal > 0 ==> ProjectedFinal(t) == goal
  {
    var idx := t.lastDataWeekIndex;
    var start := t.lastWeekTotal;
    var n := |weeks| - 1 - idx;
    assert WeeksForProjection(weeks, idx) == Some(n);
    if goal - start > 0 {
      WeeklyProjectionIsCeiling(n, goal - start);
    }
    ProjectionRows(n, t.weeklyProjection, goal - start, goal, start);
  }

  /** When the last real total already is the goal, nothing is projected:
      every later increment is 0 and the accumulated total stays at the goal. */
  lemma TableAtGoalProjectsNothing(t: EvolutionTable, weeks: seq<int>, realTotals: seq<nat>, goal: nat)
    requires ProjectedFrom(t, weeks, realTotals, goal)
    requires t.lastWeekTotal == goal
    ensures forall i :: t.lastDataWeekIndex < i < |weeks| ==> t.projectedIncrements[i] == Some(0)
    ensures forall i :: t.lastDataWeekIndex < i < |weeks| ==> t.accumulatedTotals[i] == goal
  {
    var n := |weeks| - 1 - t.lastDataWeekIndex;
    assert t.weeklyProjection == 0;
    ProjectionRows(n, 0, 0, goal, goal);
  }

  /** The projection half of `generateEvolutionDataTable`, from the last
      week with data `idx`, its real total and the real totals up to it:
      the weekly amount and the two rows. */
  method ProjectTable(weeks: seq<int>, idx: int, lastWeekTotal: nat, historical: seq<int>, goal: nat,
                      ghost realTotals: seq<nat>)
    returns (t: EvolutionTable)
    requires |realTotals| == |weeks| && -1 <= idx < |weeks|
    requires historical == realTotals[..idx + 1]
    requires lastWeekTotal == (if idx >= 0 then realTotals[idx] else 0)
    ensures t.lastDataWeekIndex == idx
    ensures TableRows(t, realTotals, goal) && TableHead(t, weeks, realTotals, goal)
  {
    var weeksLeft := WeeksForProjection(weeks, idx);
    var itemsToProject := goal - lastWeekTotal;
    var weekly := WeeklyProjection(weeksLeft, itemsToProject);
    var n := |weeks| - 1 - idx;
    var increments, totals := ProjectWeeks(n, weekly, itemsToProject, goal, lastWeekTotal);
    var projected: seq<Option<int>> :=
      seq(|weeks|, i requires 0 <= i < |weeks| => if i <= idx then None else Some(increments[i - idx - 1]));
    var accumulated: seq<int> :=
      seq(|weeks|, i requires 0 <= i < |weeks| => if i <= idx then historical[i] else totals[i - idx - 1]);
    t := EvolutionTable(idx, lastWeekTotal, weekly, projected, accumulated);
  }

  /** `generateEvolutionDataTable`: the last week with data, its real
      cumulative total, the weekly projection and the two table rows. */
  method GenerateEvolutionDataTable(
    weeks: seq<int>, incorporated: seq<Option<nat>>, editorial: seq<Option<nat>>,
    filterType: string, filtered: seq<Report>)
    returns (t: EvolutionTable)
    requires |incorporated| == |weeks| && |editorial| == |weeks|
    // the last week with data
    ensures -1 <= t.lastDataWeekIndex < |weeks|
    ensures t.lastDataWeekIndex >= 0 ==>
              incorporated[t.lastDataWeekIndex].Some? || editorial[t.lastDataWeekIndex].Some?
    ensures forall j :: t.lastDataWeekIndex < j < |weeks| ==> incorporated[j].None? && editorial[j].None?
    // how the table is filled
    ensures TableRows(t, RealTotals(filtered, weeks, Goal(filterType)), Goal(filterType))
    ensures TableHead(t, weeks, RealTotals(filtered, weeks, Goal(filterType)), Goal(filterType))
  {
    var goal := Goal(filterType);
    ghost var realTotals := RealTotals(filtered, weeks, goal);
    var idx := LastDataWeekIndex(incorporated, editorial);
    var lastWeekTotal: nat := 0;
    if idx != -1 {
      lastWeekTotal := CumulativeTotalUpTo(filtered, weeks[idx], goal);
    }
    var historical := HistoricalTotals(weeks, idx, filtered, goal);
    t := ProjectTable(weeks, idx, lastWeekTotal, historical, goal, realTotals);
  }

  // ---------------------------------------------------------------------------
  // the chart

  datatype EvolutionChartData = EvolutionChartData(
    weeks: seq<int>,
    incorporated: seq<Option<nat>>,
    editorial: seq<Option<nat>>,
    totalProgress: seq<Option<nat>>,
    table: EvolutionTable)

  /** `updateEvolutionChart`, with the lookups of the chart's container and
      of its canvas taken as booleans: nothing is drawn (`None`) when the
      container is missing, when the document filter leaves no records or
      when the canvas is missing; otherwise the three weekly series over
      weeks 23..35 and the projection table, which projects from the last
      week of the series that has data. */
  method UpdateEvolutionChart(data: seq<Item>, filterType: string, containerFound: bool, canvasFound: bool)
    returns (chart: Option<EvolutionChartData>)
    ensures chart.None? <==> !containerFound || FilterByType(data, filterType) == [] || !canvasFound
    ensures chart.Some? ==>
              var c := chart.value;
              var filtered := Reports(FilterByType(data, filterType));
              && c.weeks == AllWeeks()
              && |c.incorporated| == |c.editorial| == |c.totalProgress| == |AllWeeks()|
              && Zip(c.incorporated, c.editorial, c.totalProgress) == Series(filtered, AllWeeks(), Goal(filterType))
              && ProjectedFrom(c.table, AllWeeks(), RealTotals(filtered, AllWeeks(), Goal(filterType)), Goal(filterType))
    // the table projects from the last week with data
    ensures chart.Some? ==> -1 <= chart.value.table.lastDataWeekIndex < |AllWeeks()|
    ensures chart.Some? ==>
              var c := chart.value;
              c.table.lastDataWeekIndex >= 0 ==>
                c.incorporated[c.table.lastDataWeekIndex].Some? || c.editorial[c.table.lastDataWeekIndex].Some?
    ensures chart.Some? ==>
              var c := chart.value;
              forall j :: c.table.lastDataWeekIndex < j < |AllWeeks()| ==> c.incorporated[j].None? && c.editorial[j].None?
  {
    if !containerFound {
      return None;
    }
    var goal := Goal(filterType);
    var filtered := FilterByType(data, filterType);
    if filtered == [] {
      return None;
    }
    var reports := Reports(filtered);
    var incorporated, editorial, total := WeeklySeries(reports, goal);
    if !canvasFound {
      return None;
    }
    var table := GenerateEvolutionDataTable(AllWeeks(), incorporated, editorial, filterType, reports);
    RealTotalsWithinGoal(reports, AllWeeks(), goal);
    chart := Some(EvolutionChartData(AllWeeks(), incorporated, editorial, total, table));
  }
}
