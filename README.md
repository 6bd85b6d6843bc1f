# ADC2 dashboard core, modelled in Dafny

This project models the logic at the heart of the ADC2 progress dashboard. The dashboard tracks
the answers ("preguntas") of an environmental assessment addendum: ADC and PAC documents, their
states, report weeks and days, authors and subcontracts. Uploaded report records are kept in a
store, filtered, counted, charted and exported. The model covers:

- the weekly evolution chart and its projection table (`js/app/EvolutionChart.js`):
  - for each week from 23 to 35, the latest-day state counts;
  - the latest state of every tracked question, cumulated and capped at the goal (494, 318 or 176);
  - a constant ceiling increment projected up to week 35;
- the record store (`js/managers/DataManager.js`): keyed upsert into `allRawData` in place,
  structure validation, unique values and the generic filter;
- the state object (`js/models/AppState.js`): its fields, `setData`/`getData` and `clearData`;
- the counters:
  - `js/analyzers/DataAnalyzer.js`: states, roles, timeline and completion;
  - `js/controllers/DataController.js`: the two filters, the header figures, the subcontract
    grouping and its figures, and the pending count;
  - `js/modules/ExportModule.js`: the CSV text, the `s2ab` byte buffer, the report filters, the
    four group-count reports and the summary;
- the small rules:
  - `js/utils/helpers.js`: date reformat, unique key and filename sanitizer;
  - `js/managers/ChartManager.js`: the state order used by the donut chart;
  - `js/managers/FilterManager.js`: the week, day and subcontract option lists and the selection
    rules.

## How it is modelled

- **Records.** A record is an `Items.Item`, an insertion-ordered list of `Field(key, value)`.
  A missing property reads as `None`, which stands for `undefined`. Records are assumed to have
  distinct property names, as every JavaScript object does; the list type itself does not enforce it.
- **Text semantics** live in `Text`:
  - `String(v)` of a missing value is the text "undefined" (`Str`);
  - truthiness (`Truthy`) and `||` (`OrElse`);
  - `split`/`join` and `trim`;
  - `parseInt` (`ParseInt`), where `None` stands for `NaN`.
- **Counting objects and Maps.** The objects that `forEach` loops fill (`counts[k]++`,
  `map.set` or `map.get`) are lists of entries in first-insertion order:
  - `Groups.GroupBy` buckets records by key;
  - `Groups.Upsert` is the loop's one update;
  - `Groups.UpsertSummaries` proves that updating step by step equals summarizing the buckets;
  - `Tallies.Tally` is the count object built on top of that.
- **Imperative code stays imperative.**
  - The loops of `analyzeStates`, `analyzeRoles`, `analyzeTimeline`, `getSubcontractsData`,
    `convertToCSV`, the reports and the evolution chart are `method`s with loops. Each is
    proved equal to a specification function, and that function's properties are lemmas.
  - `mergeData` updates the `allRawData` field of an `AppState` object in place.
  - `s2ab` fills a fresh array.
  - `sortStatesByOrder` sorts an `array<string>` in place (an insertion sort by swaps).
- **Dates.** The evolution chart reads `FechaReporte` as an ISO date-only string is read:
  the day number `Y*10000+M*100+D`. Any other text, a month outside 1..12 and a day past the
  end of its month (29 February outside a leap year, 31 April) are an Invalid Date (`None`).
  - A comparison with an Invalid Date is false.
  - `Math.max` with one is `NaN`. The latest-day filter then keeps exactly the records whose date
    is invalid too, because `toDateString()` of any Invalid Date is "Invalid Date".
- **Ties in the latest-state deduplication.** On equal report dates the first record seen is
  kept, because the replacement test is strict (`<`, js/app/EvolutionChart.js:119, 429, 458);
  `EvolutionChart.LatestStatesFirstOnTies` proves it.

## Model

| member | source | states |
|---|---|---|
| Models.AppState.constructor | js/models/AppState.js:5-20 | a fresh state: the four data lists empty, no charts, no previous stats, empty subcontract name, tabs 'overview' and 'dashboard', page 1, sidebar closed, 'card' timeline view, no timeline data, not processing |
| Models.AppState.GetData | js/models/AppState.js:27-29 | reading a field gives a value of that field's kind |
| Models.AppState.SetData | js/models/AppState.js:23-25 | reading the written field back gives the value written; every other field reads as before |
| Models.AppState.ClearData | js/models/AppState.js:31-37 | the four data lists become empty and the previous stats null; every other field (charts, tabs, page, sidebar, timeline, isProcessing) reads as before |
| Utils.FormatDate | js/utils/helpers.js:5-9 | a falsy value gives 'N/A'; a text that does not split into exactly three '-' parts comes back unchanged |
| Utils.FormatDateParts | js/utils/helpers.js:5-9 | 'Y-M-D' with dash-free parts becomes 'D/M/Y' |
| Utils.SameFieldsSameKey | js/utils/helpers.js:56-58 | records equal on ID, Semana, FechaReporte, Item and Documento get equal keys |
| Utils.KeySplitsIntoParts | js/utils/helpers.js:56-58 | when no part holds '_', splitting the key on '_' gives back the five parts in that order |
| Utils.KeyDeterminesParts | js/utils/helpers.js:56-58 | when no part holds '_', equal keys mean equal five parts |
| Utils.SanitizeForFilename | js/utils/helpers.js:60-62 | same length; ASCII letters and digits kept in place; every other character becomes '_' |
| Utils.SanitizeIdempotent | js/utils/helpers.js:60-62 | sanitizing twice is sanitizing once; the result holds only ASCII letters, digits and '_' |
| Utils.SanitizeKeepsSafeNames | js/utils/helpers.js:60-62 | a text of ASCII letters and digits is left as it is |
| DataManagement.ValidateDataStructure | js/managers/DataManager.js:78-83 | true exactly when the list is non-empty and every record has every property of REQUIRED_FIELDS |
| DataManagement.ValidatedFieldsDefined | js/managers/DataManager.js:78-83 | after validation, every required property of every record is defined |
| DataManagement.FindKey | js/managers/DataManager.js:90-92 | `findIndex`: the first index whose key matches, or -1 when none does |
| DataManagement.MergeItemCases | js/managers/DataManager.js:88-103 | a new key is appended and counted; a known key is replaced at its first index and the length kept; the count grows exactly when the store changes |
| DataManagement.MergeItemFindsItem | js/managers/DataManager.js:88-103 | after a step, looking up the item's key finds the item itself |
| DataManagement.MergeUpdatedBound | js/managers/DataManager.js:85-107 | the returned count is at most the number of new items |
| DataManagement.MergeKeepsStore | js/managers/DataManager.js:85-107 | the store never shrinks; every old position keeps its key; an entry whose key no new item has keeps its value and position |
| DataManagement.MergeKeepsKeysUnique | js/managers/DataManager.js:85-107 | a store with unique keys keeps them unique |
| DataManagement.DataManager.MergeData | js/managers/DataManager.js:85-107 | `allRawData` is updated in place to the merge of the old store with the new items, and the count returned is the merge's count |
| DataManagement.UniqueValuesSpec | js/managers/DataManager.js:118-120 | no duplicates; a value is listed exactly when it is non-empty and some record has it; values appear in first-occurrence order |
| DataManagement.FilterDataSpec | js/managers/DataManager.js:122-137 | a subsequence of the store holding exactly the records that meet every criterion |
| DataManagement.FilterDataUnconstrained | js/managers/DataManager.js:122-137 | when every criterion is 'all', '' or missing, the whole store comes back |
| DataManagement.FilterDataNarrows | js/managers/DataManager.js:122-137 | one more criterion keeps a subsequence of what was kept before |
| DataManagement.FilterByPerson | js/managers/DataManager.js:128-132 | a 'person' value other than '' or 'all' keeps exactly the records where that person is Elaborador, Revisor or Coordinador |
| DataAnalyzer.AnalyzeStates | js/analyzers/DataAnalyzer.js:3-14 | the ADC, PAC and total objects are the state counts of the ADC records, of the PAC records and of all records |
| DataAnalyzer.AnalyzeStatesTotals | js/analyzers/DataAnalyzer.js:3-14 | the total counts add up to the number of records; ADC plus PAC counts are at most that; each state's count is the number of records in it; states appear in first-appearance order |
| DataAnalyzer.AdcIsNotPac | js/analyzers/DataAnalyzer.js:7-8 | no record counts as both ADC and PAC |
| DataAnalyzer.AnalyzeRoles | js/analyzers/DataAnalyzer.js:16-31 | the loop builds the per-person state counts of the role contributions of all records |
| DataAnalyzer.AddRecordRoles | js/analyzers/DataAnalyzer.js:20-27 | the inner loop over one record's three roles adds exactly that record's role holders |
| DataAnalyzer.RolePersons | js/analyzers/DataAnalyzer.js:16-31 | a person has an entry exactly when some record names that person, non-blank, as Elaborador, Revisor or Coordinador |
| DataAnalyzer.RoleTotals | js/analyzers/DataAnalyzer.js:16-31 | all role counts add up to the number of role contributions, at most three per record |
| DataAnalyzer.PersonStatesCount | js/analyzers/DataAnalyzer.js:22-25 | a person's object counts the states of that person's contributions |
| DataAnalyzer.AnalyzeTimeline | js/analyzers/DataAnalyzer.js:33-52 | the loop builds one entry per week key with the week's total, incorporated and editorial counts |
| DataAnalyzer.TimelineTotals | js/analyzers/DataAnalyzer.js:33-52 | per week, incorporated plus editorial is at most the total; the week totals add up to the number of records; weeks appear in first-appearance order |
| DataAnalyzer.RoundedPercent | js/analyzers/DataAnalyzer.js:66 | `Math.round(part / whole * 100)` characterized exactly (rounded half up); 0 for an empty whole |
| DataAnalyzer.RoundedPercentBounds | js/analyzers/DataAnalyzer.js:66 | a part of the whole gives at most 100, and the whole gives exactly 100 |
| DataAnalyzer.CalculateCompletionStats | js/analyzers/DataAnalyzer.js:54-67 | completed, in progress and pending partition the records; the rate is at most 100 and 0 without records |
| DataController.FiltersKeepMatches | js/controllers/DataController.js:88-119 | both views are subsequences of the store holding exactly the records that pass their test |
| DataController.PunctualWithinEvolution | js/controllers/DataController.js:88-119 | the punctual view is a subsequence of the evolution view for the same filters |
| DataController.EvolutionIgnoresWeekAndDay | js/controllers/DataController.js:106-119 | changing the week or the day does not change the evolution view |
| DataController.PunctualWithoutWeekOrDay | js/controllers/DataController.js:88-119 | with week 'all' and no day, both views agree |
| DataController.DefaultFiltersKeepAll | js/controllers/DataController.js:88-119 | with every filter at its default, both views are the whole store |
| DataController.GetCurrentStats | js/controllers/DataController.js:247-256 | the total is the number of records; ADC plus PAC, and incorporated plus editorial, are each at most the total |
| DataController.CurrentStatsAgreeWithAnalysis | js/controllers/DataController.js:247-256 | the ADC and PAC figures are the totals of `analyzeStates`, and the incorporated figure is `calculateCompletionStats`' completed count |
| DataController.GetSubcontractsData | js/controllers/DataController.js:465-495 | the loop builds one entry per subcontract key, in first-appearance order, from that key's records |
| DataController.SubcontractEntries | js/controllers/DataController.js:468-492 | each entry's total is the positive number of its items; incorporated, editorial and in progress add up to the total; its items are the store's records with that subcontract, in order |
| DataController.SubcontractNames | js/controllers/DataController.js:469-494 | the entry names are the distinct keys in first-appearance order; a record without a subcontract makes a 'Sin Subcontrato' entry |
| DataController.SubcontractTotals | js/controllers/DataController.js:465-495 | the entry totals add up to the number of records |
| DataController.SubcontractStatsOfData | js/controllers/DataController.js:497-514 | over the grouped entries, every subcontract responds, the questions are all records, incorporated and in-elaboration are the store-wide counts, and the progress is at most 100 |
| DataController.PendientesCount | js/controllers/DataController.js:617-618 | the pending count of an entry is the number of its items in none of Incorporada, En revisor editorial and En elaboración, so it is never negative |
| FilterManager.WeekBeforeStrictOrder | js/managers/FilterManager.js:62 | "greater week number first" is a strict order |
| FilterManager.WeekOptionsSpec | js/managers/FilterManager.js:59-62 | the week options are the unique non-empty Semana values, without duplicates, with no smaller week before a greater one |
| FilterManager.SelectWeek | js/managers/FilterManager.js:72-73 | the selection is a listed week or 'all'; a listed current week is kept; otherwise the first week when there is one and the current value is not 'all', and 'all' when no week is listed or 'all' was selected |
| FilterManager.DayLabelIsFormatDate | js/managers/FilterManager.js:92-93 | the option text of 'Y-M-D' is the `formatDate` rewrite 'D/M/Y' |
| FilterManager.DaySelectorSpec | js/managers/FilterManager.js:83-102 | the day options are the distinct report dates of the week's records, in strictly descending order, each labelled; the value is the first date when the last date is asked for or the current value is absent, else the current value; with no dates the value is '' (the 'No hay fechas' option); the control is disabled exactly when the week is '' or there are no dates |
| FilterManager.DaySelectorFails | js/managers/FilterManager.js:87-93 | the options cannot be built (`split` of undefined throws) exactly when a relevant record has no FechaReporte |
| FilterManager.LatestDateIsLatest | js/managers/FilterManager.js:112-113 | when any report date exists, the chosen one is among them and no other is greater |
| FilterManager.LatestSubcontractsSpec | js/managers/FilterManager.js:114-115 | a subcontract is taken from the latest day exactly when it is the non-empty `Subcontrato` of a record of that day |
| FilterManager.SubcontractOptionsWithData | js/managers/FilterManager.js:111-119 | the list is strictly ascending; it holds the latest day's subcontracts, or all unique subcontracts when the latest day has none |
| FilterManager.SubcontractOptionsWithoutData | js/managers/FilterManager.js:120-122 | with an empty store, the list is the predefined subcontracts in strictly ascending order |
| FilterManager.CurrentFiltersDefaults | js/managers/FilterManager.js:130-141 | a falsy control gives 'all', except the day, which gives ''; a set control gives its value |
| EvolutionChart.AllWeeks | js/app/EvolutionChart.js:60-62 | 13 weeks, 23 to 35 in order |
| EvolutionChart.FilterByTypeMembers | js/app/EvolutionChart.js:43-48 | 'ADC' and 'PAC' keep exactly that document's records; any other filter keeps all |
| EvolutionChart.ParseIsoDate | js/app/EvolutionChart.js:102 | a report date is valid exactly when it has the 'YYYY-MM-DD' shape, a month 1..12 and a day within that month of that year, and then its day number gives back the written year, month and day |
| EvolutionChart.CalendarDays | js/app/EvolutionChart.js:102 | 2023-02-29 and 2023-04-31 are Invalid Dates, while 2024-02-29 and 2023-03-01 are dates of their own |
| EvolutionChart.LatestDayIsMax | js/app/EvolutionChart.js:96-98 | the latest day is `NaN` exactly when some date is invalid; otherwise it is the greatest report day and one of the week's days |
| EvolutionChart.LatestDayRecordsMembers | js/app/EvolutionChart.js:101-104 | the latest-day records are the week's records dated on the latest day: at least one, and no more than the week has |
| EvolutionChart.WeekPoint | js/app/EvolutionChart.js:87-136 | the three values of a week are null exactly when no record has that week; incorporated plus editorial is at most the latest day's records, which are at most the week's; the cumulative total is at most the goal |
| EvolutionChart.LatestStatesSound | js/app/EvolutionChart.js:114-122 | every tracked ID (`ID_Corregido` or else `ID`) is kept once by one of its own records, and none of its records has a strictly later date |
| EvolutionChart.ReplacingIsLater | js/app/EvolutionChart.js:119-120 | a record that replaces the kept one is strictly later than every earlier record of its ID with a valid date |
| EvolutionChart.LatestStatesFirstOnTies | js/app/EvolutionChart.js:114-122 | with valid dates, the kept record is the first one with the greatest date: every earlier record of its ID is strictly earlier |
| EvolutionChart.CumulativeTotalBounds | js/app/EvolutionChart.js:111-131 | the cumulative total is at most the goal and at most the distinct IDs up to the week, which are at most the records |
| EvolutionChart.LatestStatesById | js/app/EvolutionChart.js:114-122 | the `forEach` builds the latest-state object: every ID kept, by one of its records, none later |
| EvolutionChart.CumulativeTotalUpTo | js/app/EvolutionChart.js:419-438 | the loop gives the capped cumulative total up to the week |
| EvolutionChart.WeekPointOf | js/app/EvolutionChart.js:88-136 | one week's incorporated, editorial and cumulative values, as specified per week |
| EvolutionChart.WeeklySeries | js/app/EvolutionChart.js:83-137 | three series of 13 values, each the week's point |
| EvolutionChart.WeeklyProjectionIsCeiling | js/app/EvolutionChart.js:441-444 | the weekly projection is the ceiling quotient: the least weekly amount that covers what is left in the weeks left |
| EvolutionChart.ProjectedSoFarClosedForm | js/app/EvolutionChart.js:470-491 | after t projected weeks exactly min(items to project, weekly amount times t) has been added |
| EvolutionChart.IncrementAtBounds | js/app/EvolutionChart.js:476-485 | each projected increment lies between 0 and the weekly amount |
| EvolutionChart.LastDataWeekIndex | js/app/EvolutionChart.js:405-411 | the backward search finds the last week with a non-null value, or -1 when none has one |
| EvolutionChart.RealTotalsWithinGoal | js/app/EvolutionChart.js:451-468 | every historical cumulative total is at most the goal |
| EvolutionChart.HistoricalTotals | js/app/EvolutionChart.js:451-468 | the loop gives the real cumulative totals of the weeks up to the last week with data |
| EvolutionChart.ProjectWeeks | js/app/EvolutionChart.js:471-492 | the projection loop gives, per projected week, the specified increment and running total |
| EvolutionChart.ProjectionRows | js/app/EvolutionChart.js:470-491 | increments lie between 0 and the weekly amount; running totals never decrease and stay within the goal, so the increments add up to at most the items to project; when the weekly amount covers the rest, the goal is reached exactly |
| EvolutionChart.TableWithinGoal | js/app/EvolutionChart.js:466-491 | every accumulated total of the table lies between 0 and the goal |
| EvolutionChart.TableIncrementsBounded | js/app/EvolutionChart.js:476-487 | every projected increment lies between 0 and the weekly projection |
| EvolutionChart.TableNondecreasing | js/app/EvolutionChart.js:475-491 | from the last week with data on, accumulated totals never decrease |
| EvolutionChart.TableReachesGoal | js/app/EvolutionChart.js:441-491 | over weeks 23 to 35, when a week is left to project, the last accumulated total, and so the projected final total, is the goal exactly |
| EvolutionChart.TableAtGoalProjectsNothing | js/app/EvolutionChart.js:472-485 | when the real total already is the goal, every projected increment is 0 and the total stays at the goal |
| EvolutionChart.ProjectTable | js/app/EvolutionChart.js:440-492 | the weekly amount and the two table rows: null increments and real totals up to the last week with data, projected increments and running totals after |
| EvolutionChart.GenerateEvolutionDataTable | js/app/EvolutionChart.js:398-492 | finds the last week with data and fills the table from the real cumulative totals with the filter's goal |
| EvolutionChart.UpdateEvolutionChart | js/app/EvolutionChart.js:30-380 | nothing is drawn exactly when the chart container is missing, the document filter leaves no record or the canvas is missing; otherwise weeks 23 to 35 with the three weekly series, and the projection table for the filter's goal, projected from the last week of those series that has data |
| ExportModule.BytesOfBinaryString | js/modules/ExportModule.js:48-53 | a text of character codes below 256 reads back from its bytes unchanged |
| ExportModule.BytesKeepLowBits | js/modules/ExportModule.js:51 | byte i is `charCodeAt(i) & 0xFF` |
| ExportModule.S2ab | js/modules/ExportModule.js:48-53 | a fresh buffer of the text's length holding its bytes |
| ExportModule.ConvertToCSV | js/modules/ExportModule.js:136-151 | the loop builds the CSV text: the header line, then one quoted line per record |
| ExportModule.CsvReadsBack | js/modules/ExportModule.js:136-151 | no records give ''; otherwise, when the first record has at least one property and the header names hold no ',' or newline and do not start with '"', reading the text as CSV gives back the headers and every record's cells (missing or empty as '') |
| Csv.ReadQuotedEscape | js/modules/ExportModule.js:145 | doubling the inner quotes is undone by reading the quoted cell |
| Csv.ReadQuotedLines | js/modules/ExportModule.js:143-150 | lines of quoted cells joined by newlines read back as those rows |
| ExportModule.SpecificFiltersSpec | js/modules/ExportModule.js:189-196 | a subsequence holding exactly the records equal to every filter that is not 'all', '' or missing |
| ExportModule.IgnoredFiltersKeepAll | js/modules/ExportModule.js:192 | when every filter is 'all', '' or missing, all records come back |
| ExportModule.SpecificFiltersAgreeWithFilterData | js/modules/ExportModule.js:189-196 | without a 'person' entry, these filters keep what the store's `filterData` keeps |
| ExportModule.ReportRowsSpec | js/modules/ExportModule.js:221-225 | each report row names its key and carries its count as Cantidad |
| ExportModule.WeekCountBeforeStrictOrder | js/modules/ExportModule.js:268 | "smaller week number first" is a strict order |
| ExportModule.GenerateStatesReport | js/modules/ExportModule.js:215-226 | one row per state, in first-appearance order, with its count |
| ExportModule.GeneratePeopleReport | js/modules/ExportModule.js:229-244 | one row per role holder, in first-appearance order, with their number of roles |
| ExportModule.CountRecordPeople | js/modules/ExportModule.js:232-236 | the inner loop counts exactly one record's role holders |
| ExportModule.GenerateThematicsReport | js/modules/ExportModule.js:247-258 | one row per thematic, in first-appearance order, with its count |
| ExportModule.GenerateWeeksReport | js/modules/ExportModule.js:261-274 | one row per week, with its count, sorted by week number |
| ExportModule.ReportTotals | js/modules/ExportModule.js:215-274 | the counts of the states, thematics and weeks reports add up to the number of records, and those of the people report to the number of role contributions, at most three per record; the weeks rows are in ascending week number |
| ExportModule.GenerateReportData | js/modules/ExportModule.js:199-212 | each known type gives its report; any other type gives the records unchanged |
| ExportModule.GenerateSummaryData | js/modules/ExportModule.js:56-72 | total is the number of records; ADC plus PAC, and incorporated plus editorial, are at most the total; the rate is at most 100, 0 without records and 100 when all are incorporated |
| ExportModule.SummaryRateIsCompletionRate | js/modules/ExportModule.js:70 | the summary's rate is `calculateCompletionStats`' rate |
| ChartManager.OrderIndex | js/managers/ChartManager.js:173-174 | `indexOf` in ESTADO_ORDER: -1 exactly for an unlisted state, else the first position holding it |
| ChartManager.StateBeforeTotalOrder | js/managers/ChartManager.js:172-179 | the comparator is a strict order under which any two different states are ordered |
| ChartManager.SortedStatesOrder | js/managers/ChartManager.js:173-178 | in a sorted list, listed states come first, ordered by their ESTADO_ORDER position, and unlisted states follow in string order |
| ChartManager.SortInPlace | js/managers/ChartManager.js:172 | `Array.prototype.sort` in place: the array ends a permutation of itself with no pair out of order |
| ChartManager.SortStatesByOrder | js/managers/ChartManager.js:171-180 | the states array is sorted in place by the state order and is a permutation of itself |
| ChartManager.CreateDonutChart | js/managers/ChartManager.js:76-92 | nothing is drawn exactly when the canvas is missing or the counts add up to 0; otherwise the labels are the states in state order, each with its count |

## Left out

- Chart.js datasets, gradients, tooltips, annotations, labels and the HTML of tables, modals, cards
  and legends. These are rendering in a foreign library and the DOM.
- `getWeekStartDate`, `Utils.calculateWeekStartDate` and `toLocaleDateString` labels. They depend
  on JavaScript `Date` mutation, UTC versus local time and locale output.
- Dates other than 'YYYY-MM-DD'. `new Date` of any other text is modelled as an Invalid Date,
  while JavaScript accepts more formats.
- `EvolutionChart.ParseIsoDate`: a calendar-invalid day such as "2023-02-29" is an Invalid Date,
  as in some engines; V8 instead rolls it over to the next month's day ("2023-03-01"), which the
  model does not follow.
- The `Porcentaje` column, the `toFixed` percentages and floating-point division. Rounded
  percentages are computed exactly, rounding half up, which can differ from `Math.round` on
  floating-point ratios at exact halves.
- `localeCompare`. Ordering is by character code (`Text.LexLt`), and so is the default `sort`
  order, with no Unicode normalisation.
- Characters outside the Basic Multilingual Plane. A model character is a Unicode scalar value,
  so an emoji in `Tematica` or `Subcontrato` is one character where JavaScript sees two UTF-16
  code units; for such text `sanitizeForFilename` would write two '_' and `s2ab` two bytes.
  Only text within the Basic Multilingual Plane is modelled faithfully.
- Values are text only. JSON numbers, booleans and `null` are not told apart from text, so a
  numeric `Semana` is its decimal text and the falsy number 0 is not modelled.
- The ordering JavaScript objects give integer-like keys. Count objects keep first-insertion
  order for every key.
- `JSON.stringify` equality in `mergeData` is record equality: same properties in the same order
  with the same values.
- `DataManagement.DataManager.MergeData`: its ensures uses `old`, so it states the new store and
  the count through `Merge`, whose properties are separate lemmas.
- I/O and storage:
  - `processFile`, `readFileAsync`, `handleFileUpload` and `JSON.parse`;
  - localStorage (`saveToStorage`, `loadFromStorage`, `clearAllData`);
  - the SheetJS workbook, Blob and download links;
  - `exportToExcel`, `exportToCSV` and `exportSpecificReport`.
- Timers and animation (`debounce`, `throttle`, `animateNumber`, the `setTimeout` reset of
  `isProcessing`), and the UIController, DOMManager, NotificationManager, DashboardApp, main.js
  and testUtils.js files. They are event timing, DOM and application wiring.
- DOM reads and writes:
  - The operations take their records as a parameter instead of reading
    `state.allRawData` or `currentFilteredData`.
  - `getCurrentFilters` takes the control values as `Option`s.
  - `createDonutChart` takes the canvas lookup as a boolean, and `updateEvolutionChart` takes
    the lookups of its container and of its canvas as booleans.
  - `generateEvolutionDataTable` gives up without a table when neither its table container nor
    the chart container exists; the model always builds the table of a drawn chart.
  - The assignment of a `<select>`'s value and options is left out.
- The subcontract-to-manager table of `renderSubcontractsGrid` is static display data.
- `Models.AppState.SetData`: it requires the value to be of the field's kind, while JavaScript
  lets `setData` store anything under any name.
- `ChartManager.SortInPlace`: `Array.prototype.sort` is modelled by an insertion sort. For a
  strict total order, such as the state order, both give the same result.
- `ExportModule.GenerateWeeksReport`: `parseInt(a) - parseInt(b)` is read as a strict order in
  which a week that is not a number ties with everything. JavaScript's order for such
  inconsistent comparisons is implementation-defined; the model's stable insertion sort fixes
  one outcome.
- `FilterManager.WeekOptionsSpec`: the same holds for the week options' `parseInt(b) -
  parseInt(a)`; with a `Semana` that is not a number the model's order is one of the orders
  an engine may produce, not necessarily the one a given engine produces.
- Plain-object keys: `latestStatesByID` and the count objects of the reports and the analyzer
  are plain objects, so an ID or value such as "constructor" or "__proto__" reads an inherited
  property in JavaScript (the record is never kept, or the count is lost or becomes text). The
  model treats every key alike, as a `Map` would.
- `FilterManager.DaySelectorSpec`: `date.split` on a record without `FechaReporte` throws; the
  model returns `None` for it (`FilterManager.DaySelectorFails`).
- `ExportModule.CsvReadsBack`: proved only when the first record has at least one property, because a text with no columns
  (`convertToCSV` writes "\n" for `[{}]`) reads back as one empty cell; and only for header names that hold no ',' or newline
  and do not start with '"', because `convertToCSV` writes the header line unquoted.
