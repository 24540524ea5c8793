/** The state of the `IMFData` object (main.py:10-38) and its event handlers,
    run one after another: the catalog load, the choice of a dataflow, the
    schema load, the selection toggle with its fetch-button gate, the data
    fetch, the browser buttons and the two exports. Widgets, threads and the
    HTTP client are not part of this model; each fetch takes the parsed
    response for a URL as a function. */
module App {
  import opened Types
  import opened Catalog
  import opened Schema
  import opened Selection
  import opened Query
  import opened Series
  import opened Browser
  import opened Export

  class ImfData {
    var keyFamilyId: string
    var attributes: map<string, seq<CodeEntry>>
    var datastructures: Option<map<string, seq<CodeEntry>>>
    var dataflows: Option<seq<DataflowSummary>>
    var fetchButton: bool
    /** `display_data`; its initial `None` behaves as the empty list everywhere. */
    var displayData: seq<Frame>
    var currentIndex: nat
    /** The parsed series `displayData` was shaped from. */
    ghost var series: seq<SeriesElement>

    ghost predicate Valid()
      reads this
    {
      && (forall k :: k in attributes ==> NoDup(attributes[k]))
      && ShapedFrom(displayData, series)
    }

    /** The cursor points at a table, or there is none. */
    ghost predicate CursorInRange()
      reads this
    {
      displayData != [] ==> currentIndex < |displayData|
    }

    constructor ()
      ensures Valid() && CursorInRange()
      ensures keyFamilyId == "" && attributes == map[] && datastructures == None && dataflows == None
      ensures !fetchButton && displayData == [] && currentIndex == 0
    {
      keyFamilyId := "";
      attributes := map[];
      datastructures := None;
      dataflows := None;
      fetchButton := false;
      displayData := [];
      currentIndex := 0;
      series := [];
    }

    /** `fetch_dataflows`: on success the catalog is the complete entries sorted
        by name; on a request failure nothing changes. */
    method LoadDataflows(get: Fetch<seq<DataflowElement>>)
      requires Valid()
      modifies this`dataflows
      ensures Valid()
      ensures get(DataflowUrl).Err? ==> dataflows == old(dataflows)
      ensures get(DataflowUrl).Ok? ==> dataflows == Some(CatalogOf(get(DataflowUrl).value))
    {
      match get(DataflowUrl) {
        case Err(_) =>
        case Ok(elems) =>
          var collected := CollectDataflows(elems);
          dataflows := Some(SortByName(collected));
      }
    }

    /** `on_dataflow_select`: with a row selected, take that catalog entry's
        key family id and start loading its schema. */
    method SelectDataflow(selected: Option<nat>)
      requires Valid()
      requires dataflows.Some? && (selected.Some? ==> selected.value < |dataflows.value|)
      modifies this`keyFamilyId, this`attributes, this`fetchButton
      ensures Valid()
      ensures selected.None? ==>
                keyFamilyId == old(keyFamilyId) && attributes == old(attributes) && fetchButton == old(fetchButton)
      ensures selected.Some? ==>
                keyFamilyId == dataflows.value[selected.value].keyFamilyId && attributes == map[] && !fetchButton
    {
      if selected.Some? {
        keyFamilyId := dataflows.value[selected.value].keyFamilyId;
        SetDatastructures();
      }
    }

    /** The synchronous part of `set_datastructures`: clear every selection and
        remove the fetch button (the schema request itself is FetchDatastructures). */
    method SetDatastructures()
      requires Valid()
      modifies this`attributes, this`fetchButton
      ensures Valid()
      ensures attributes == map[] && !fetchButton
    {
      attributes := map[];
      fetchButton := false;
    }

    /** `fetch_datastructures`: with no key family id, nothing happens; on a
        request failure the codelists become empty and the selections stay; on
        success the three expected keys get empty selections and the first
        codelist of each expected id is kept. */
    method FetchDatastructures(get: Fetch<seq<CodeListElement>>)
      requires Valid()
      modifies this`attributes, this`datastructures
      ensures Valid()
      ensures keyFamilyId == "" ==> attributes == old(attributes) && datastructures == old(datastructures)
      ensures keyFamilyId != "" && get(StructureUrlPrefix + keyFamilyId).Err? ==>
                attributes == old(attributes) && datastructures == Some(map[])
      ensures keyFamilyId != "" && get(StructureUrlPrefix + keyFamilyId).Ok? ==>
                && attributes == old(attributes)[FreqKey := []][IndicatorKey(keyFamilyId) := []][AreaKey(keyFamilyId) := []]
                && datastructures == Some(KeptCodelists(get(StructureUrlPrefix + keyFamilyId).value, ExpectedIds(keyFamilyId)))
    {
      if keyFamilyId == "" {
        return;
      }
      match get(StructureUrlPrefix + keyFamilyId) {
        case Err(_) =>
          datastructures := Some(map[]);
        case Ok(codelists) =>
          attributes := attributes[FreqKey := []][IndicatorKey(keyFamilyId) := []][AreaKey(keyFamilyId) := []];
          var found := SelectCodelists(codelists, ExpectedIds(keyFamilyId));
          datastructures := Some(found);
      }
    }

    /** `on_datastructure_select`: toggle the double-clicked code of `key` and
        re-evaluate the fetch button. */
    method Toggle(key: string, index: nat)
      requires Valid()
      requires datastructures.Some? && key in datastructures.value && index < |datastructures.value[key]|
      requires key in attributes && IndicatorKey(keyFamilyId) in attributes
      modifies this`attributes, this`fetchButton
      ensures Valid()
      ensures attributes == ToggleKey(old(attributes), key, datastructures.value[key][index])
      ensures datastructures.value[key][index] in attributes[key] <==>
                datastructures.value[key][index] !in old(attributes)[key]
      ensures fetchButton <==> attributes[IndicatorKey(keyFamilyId)] != []
    {
      var chosen := attributes[key];
      var selected := datastructures.value[key][index];
      ToggleFlips(chosen, selected);
      ToggleKeepsNoDup(chosen, selected);
      if selected in chosen {
        chosen := RemoveFirst(chosen, selected);
      } else {
        chosen := chosen + [selected];
      }
      attributes := attributes[key := chosen];
      fetchButton := GateButton(attributes, keyFamilyId, fetchButton);
    }

    /** `_fetch_data_thread`: request the current selection's URL and, unless the
        request fails, replace the data by one table per series. The cursor is
        left where it was. */
    method FetchData(get: Fetch<seq<SeriesElement>>)
      requires Valid()
      requires FreqKey in attributes && AreaKey(keyFamilyId) in attributes && IndicatorKey(keyFamilyId) in attributes
      modifies this`displayData, this`series
      ensures Valid()
      ensures currentIndex == old(currentIndex)
      ensures get(DataUrl(keyFamilyId, attributes)).Err? ==> displayData == old(displayData)
      ensures get(DataUrl(keyFamilyId, attributes)).Ok? ==>
                ShapedFrom(displayData, get(DataUrl(keyFamilyId, attributes)).value)
      ensures get(DataUrl(keyFamilyId, attributes)).Ok? && displayData != [] && |displayData| <= old(currentIndex) ==>
                !CursorInRange()
    {
      var url := DataUrl(keyFamilyId, attributes);
      match get(url) {
        case Err(_) =>
        case Ok(parsed) =>
          var output := ShapeSeries(parsed);
          displayData := output;
          series := parsed;
      }
    }

    /** `show_next_dataset`. */
    method ShowNext()
      requires Valid()
      modifies this`currentIndex
      ensures Valid()
      ensures currentIndex == NextIndex(old(currentIndex), |displayData|)
      ensures old(CursorInRange()) ==> CursorInRange()
    {
      if displayData != [] && currentIndex < |displayData| - 1 {
        currentIndex := currentIndex + 1;
      }
    }

    /** `show_previous_dataset`. */
    method ShowPrevious()
      requires Valid()
      modifies this`currentIndex
      ensures Valid()
      ensures currentIndex == PreviousIndex(old(currentIndex), |displayData|)
      ensures old(CursorInRange()) ==> CursorInRange()
    {
      if displayData != [] && currentIndex > 0 {
        currentIndex := currentIndex - 1;
      }
    }

    /** The table `update_treeview` looks up. Its rows are then listed by their
        `Timeperiod` cell, a column that a series without observations lacks. */
    function Shown(): (r: Shown)
      reads this
      requires Valid()
      ensures r.NothingShown? <==> displayData == []
      ensures r.ShownTable? <==> currentIndex < |displayData|
      ensures r.ShownTable? ==> r.table == displayData[currentIndex]
      ensures r.ShownTable? ==> |r.table.rows| == |series[currentIndex].obs| + 1
      ensures r.ShownTable? ==> ("Timeperiod" in r.table.columns <==> series[currentIndex].obs != [])
    {
      ShownAt(displayData, currentIndex)
    }

    /** `save_to_csv(name)` with the chosen folder ("" when cancelled). */
    function SaveToCsv(name: string, folder: string): (r: ExportOutcome)
      reads this
      requires Valid()
      ensures r.NoData? <==> displayData == []
      ensures displayData != [] && folder == "" ==> r == NoFolder
      ensures currentIndex < |displayData| && folder != "" ==>
                r == WriteCsv(folder + "/" + name + ".csv", ObservationTable(series[currentIndex].obs))
      ensures displayData != [] && folder != "" && currentIndex >= |displayData| ==> r == Failed(IndexError)
    {
      ExportOfShaped(displayData, series, currentIndex, name, folder, "");
      CsvExport(displayData, currentIndex, name, folder)
    }

    /** `save_to_mysql(..., table_name)`. */
    function SaveToMysql(tableName: string): (r: ExportOutcome)
      reads this
      requires Valid()
      ensures r.NoData? <==> displayData == []
      ensures currentIndex < |displayData| ==> r == ReplaceTable(tableName, ObservationTable(series[currentIndex].obs))
      ensures displayData != [] && currentIndex >= |displayData| ==> r == Failed(IndexError)
    {
      ExportOfShaped(displayData, series, currentIndex, "", "", tableName);
      SqlExport(displayData, currentIndex, tableName)
    }
  }
}
