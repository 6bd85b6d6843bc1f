/** `AppState`: the dashboard's single mutable state object. */
module Models {
  import opened Wrappers
  import opened Items

  /** The header figures last shown, kept to display their change. */
  datatype Stats = Stats(total: nat, adc: nat, pac: nat, incorporated: nat, editorial: nat)

  /** The state's fields, as `setData`/`getData` name them. */
  datatype Slot =
    | AllRawData | CurrentFilteredData | CurrentEvolutionData | CurrentSubcontractData
    | Charts | PreviousStats | CurrentSubcontractName | CurrentTab | CurrentMainTab
    | DetailsPage | SidebarOpen | CurrentTimelineView | FilteredTimelineData | IsProcessing

  /** A value stored in a field. */
  datatype Value =
    | Records(records: seq<Item>)
    | ChartSet(charts: map<string, nat>)
    | MaybeStats(stats: Option<Stats>)
    | Text(text: string)
    | Number(number: int)
    | Flag(flag: bool)
    | MaybeRecords(maybeRecords: Option<seq<Item>>)

  /** Which kind of value each field holds. */
  predicate Fits(slot: Slot, v: Value) {
    match slot
    case AllRawData | CurrentFilteredData | CurrentEvolutionData | CurrentSubcontractData => v.Records?
    case Charts => v.ChartSet?
    case PreviousStats => v.MaybeStats?
    case CurrentSubcontractName | CurrentTab | CurrentMainTab | CurrentTimelineView => v.Text?
    case DetailsPage => v.Number?
    case SidebarOpen | IsProcessing => v.Flag?
    case FilteredTimelineData => v.MaybeRecords?
  }

  /** The fields `clearData` resets. */
  predicate Cleared(slot: Slot) {
    slot.AllRawData? || slot.CurrentFilteredData? || slot.CurrentEvolutionData?
    || slot.CurrentSubcontractData? || slot.PreviousStats?
  }

  class AppState {
    var allRawData: seq<Item>
    var currentFilteredData: seq<Item>
    var currentEvolutionData: seq<Item>
    var currentSubcontractData: seq<Item>
    /** The live chart instances by name; their contents are not modelled. */
    var charts: map<string, nat>
    var previousStats: Option<Stats>
    var currentSubcontractName: string
    var currentTab: string
    var currentMainTab: string
    var detailsPage: int
    var sidebarOpen: bool
    var currentTimelineView: string
    var filteredTimelineData: Option<seq<Item>>
    var isProcessing: bool

    /** A fresh state: no data, no charts, the overview of the dashboard. */
    constructor()
      ensures allRawData == [] && currentFilteredData == [] && currentEvolutionData == []
      ensures currentSubcontractData == [] && charts == map[] && previousStats == None
      ensures currentSubcontractName == "" && currentTab == "overview" && currentMainTab == "dashboard"
      ensures detailsPage == 1 && !sidebarOpen && currentTimelineView == "card"
      ensures filteredTimelineData == None && !isProcessing
    {
      allRawData := [];
      currentFilteredData := [];
      currentEvolutionData := [];
      currentSubcontractData := [];
      charts := map[];
      previousStats := None;
      currentSubcontractName := "";
      currentTab := "overview";
      currentMainTab := "dashboard";
      detailsPage := 1;
      sidebarOpen := false;
      currentTimelineView := "card";
      filteredTimelineData := None;
      isProcessing := false;
    }

    /** `getData(key)`: the value of the field. */
    function GetData(slot: Slot): (v: Value)
      reads this
      ensures Fits(slot, v)
    {
      match slot
      case AllRawData => Records(allRawData)
      case CurrentFilteredData => Records(currentFilteredData)
      case CurrentEvolutionData => Records(currentEvolutionData)
      case CurrentSubcontractData => Records(currentSubcontractData)
      case Charts => ChartSet(charts)
      case PreviousStats => MaybeStats(previousStats)
      case CurrentSubcontractName => Text(currentSubcontractName)
      case CurrentTab => Text(currentTab)
      case CurrentMainTab => Text(currentMainTab)
      case DetailsPage => Number(detailsPage)
      case SidebarOpen => Flag(sidebarOpen)
      case CurrentTimelineView => Text(currentTimelineView)
      case FilteredTimelineData => MaybeRecords(filteredTimelineData)
      case IsProcessing => Flag(isProcessing)
    }

    /** `setData(key, value)`: afterwards `getData(key)` is `value` and every
        other field reads as before. */
    method SetData(slot: Slot, v: Value)
      requires Fits(slot, v)
      modifies this
      ensures GetData(slot) == v
      ensures forall s :: s != slot ==> GetData(s) == old(GetData(s))
    {
      match slot
      case AllRawData => allRawData := v.records;
      case CurrentFilteredData => currentFilteredData := v.records;
      case CurrentEvolutionData => currentEvolutionData := v.records;
      case CurrentSubcontractData => currentSubcontractData := v.records;
      case Charts => charts := v.charts;
      case PreviousStats => previousStats := v.stats;
      case CurrentSubcontractName => currentSubcontractName := v.text;
      case CurrentTab => currentTab := v.text;
      case CurrentMainTab => currentMainTab := v.text;
      case DetailsPage => detailsPage := v.number;
      case SidebarOpen => sidebarOpen := v.flag;
      case CurrentTimelineView => currentTimelineView := v.text;
      case FilteredTimelineData => filteredTimelineData := v.maybeRecords;
      case IsProcessing => isProcessing := v.flag;
    }

    /** `clearData`: the four record lists are emptied and `previousStats`
        forgotten; charts, tabs, paging and flags stay as they were. */
    method ClearData()
      modifies this
      ensures allRawData == [] && currentFilteredData == [] && currentEvolutionData == []
      ensures currentSubcontractData == [] && previousStats == None
      ensures forall s :: !Cleared(s) ==> GetData(s) == old(GetData(s))
    {
      allRawData := [];
      currentFilteredData := [];
      currentEvolutionData := [];
      currentSubcontractData := [];
      previousStats := None;
    }
  }
}
