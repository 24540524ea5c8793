# IMF SDMX client: a Dafny model of its workflow core

`main.py` is a Tkinter client for the IMF SDMX REST service. A user browses the
catalog of dataflows, double-clicks one to load its three codelists (frequency,
area and indicator), toggles codes into a selection, fetches the matching time
series, steps through them and exports the shown series to CSV or MySQL.

This project models the sequential logic inside those event handlers over plain
records. The HTTP requests and the XML parser are replaced by a function from
URL to parsed elements (`Types.Fetch`).

- `types.dfy` holds the parsed elements (`DataflowElement`, `CodeListElement`,
  `SeriesElement`, `ObsElement`), the records main.py builds (`CodeEntry`,
  `DataflowSummary`) and `Frame`, a DataFrame reduced to named columns over rows
  of possibly-missing cells.
- `strings.dfy` holds Python's string order and `str.join` / `str.split` on
  one separator.
- `catalog.dfy` covers the dataflow list: it keeps the complete entries and
  sorts them by name, stably.
- `schema.dfy` covers the codelist selection: the three expected ids, first
  occurrence only.
- `selection.dfy` covers the toggle and the fetch-button gate.
- `query.dfy` covers the `CompactData/<id>/<freq>.<area>.<indicator>` path and
  how it decodes back into the selection.
- `series.dfy` covers one table per `<Series>` and the export projection (drop
  row 0, drop the metadata columns).
- `browser.dfy` covers the `current_index` cursor.
- `export.dfy` covers what the two exports would write.
- `app.dfy` holds class `ImfData`, the object's fields and its handlers, run
  one after another.

Five behaviours of the code that a reader might not expect; the model keeps
each as written:

- The cursor is never reset when a fetch replaces `display_data`
  (main.py:36, main.py:250). After a fetch that returns fewer series, the cursor
  can point past the end. `Browser.ShownAt` then fails with IndexError,
  `Export.CsvExport` and `Export.SqlExport` report `Failed(IndexError)` (the
  `except Exception` at main.py:377 and main.py:416 swallows it), "Next" never
  moves, and "Previous" steps back one table per press.
- The exported columns are `Value`, `Timeperiod`, in that order. That is the
  order in which the row dictionaries at main.py:244-247 first list them, not
  `timeperiod,value`. A series without any `<Obs>` produces a table with only
  the three metadata columns, so its export has no columns and no rows.
- A failed schema request leaves the selections as they were and sets
  `datastructures` to `{}`. The three keys are reset only after a successful
  request (main.py:103-109).
- The series request never calls `raise_for_status` (main.py:230). An HTTP error
  page is parsed like any response, and in practice yields no series. Only a
  request exception (a connection failure, a timeout, too many redirects, an
  invalid URL, a broken chunked response) keeps the previous data.
- A series without any `<Obs>` is shown with no `Timeperiod` column, so
  listing its rows at main.py:314 raises KeyError after the label is set and
  nothing is inserted in the Treeview. `App.ImfData.Shown` states that the
  looked-up table has a `Timeperiod` column iff its series has observations.

## Model

| member | source | states |
|---|---|---|
| `Strings.LexTotal` | main.py:56 | any two names are ordered one way or the other under Python's string order |
| `Strings.LexTransitive` | main.py:56 | Python's string order is transitive |
| `Strings.LexAntisymmetric` | main.py:56 | two names ordered both ways are equal |
| `Strings.LexReflexive` | main.py:56 | every name is ordered before or equal to itself |
| `Strings.SplitJoin` | main.py:225-227 | for a non-empty list of parts, none containing the separator, splitting their `+`-join on `+` gives back the parts |
| `Strings.JoinAvoids` | main.py:225-228 | a character no part contains, other than the separator, does not occur in the join |
| `Catalog.CollectDataflows` | main.py:47-55 | the loop appends exactly the summaries of the complete elements, in document order |
| `Catalog.CompleteMembers` | main.py:48-55 | a summary is collected iff some `<Dataflow>` element has that `Name` and that `KeyFamilyID` |
| `Catalog.CompleteLength` | main.py:48-55 | at most one summary per element, and one for every element iff every element is complete |
| `Catalog.SortByNameSorted` | main.py:56 | the sorted catalog is ascending by name and a permutation of its input |
| `Catalog.SortByNameStable` | main.py:56 | entries with the same name keep their input order, so the sort is stable |
| `Catalog.CatalogSpec` | main.py:47-57 | the stored catalog holds exactly the complete entries, ascending by name, with ties in document order |
| `Catalog.CatalogExample` | main.py:47-57 | catalog entries that arrive as GFS then BOP are stored as BOP then GFS |
| `Schema.ExpectedIdsDistinct` | main.py:107 | `CL_FREQ`, `CL_INDICATOR_<id>` and `CL_AREA_<id>` are three distinct keys for every id |
| `Schema.ScanSpec` | main.py:111-116 | the scan keeps, for each still-wanted id, the codes of its first codelist and leaves collected entries alone |
| `Schema.KeptCodelistsSpec` | main.py:106-116 | the result holds exactly the expected ids present in the response, each with its first occurrence's codes |
| `Schema.SelectCodelists` | main.py:111-116 | the loop that discards each id once seen computes that first-occurrence selection |
| `Schema.MissingIndicatorExample` | main.py:107-116 | a response without `CL_INDICATOR_BOP` loads only `CL_FREQ` and `CL_AREA_BOP` |
| `Selection.RemoveFirst` | main.py:202 | `list.remove` takes out the first occurrence of the element and keeps every other code in its order |
| `Selection.Toggled` | main.py:201-204 | one toggle removes the first copy of a present code, keeping the others in selection order, or adds an absent one, and leaves other codes' membership unchanged |
| `Selection.ToggleFlips` | main.py:199-204 | on a duplicate-free list a present code leaves, the other codes keeping their order, and an absent one is appended at the end |
| `Selection.ToggleKeepsNoDup` | main.py:201-204 | a toggle keeps a selection free of duplicates |
| `Selection.ToggleTwiceRestores` | main.py:199-204 | toggling an absent code twice restores the list exactly |
| `Selection.ToggleAllNoDup` | main.py:201-204 | any run of toggles from a duplicate-free list stays duplicate-free |
| `Selection.ClicksFromEmptyNoDup` | main.py:199-204 | from an empty selection no run of toggles produces a duplicate |
| `Selection.ToggleKey` | main.py:199-204 | a toggle on one key replaces that key's list by its toggled list (first copy removed with the order kept, or the code appended) and changes no other key; the code is selected afterwards iff it was absent or selected more than once |
| `Selection.GateButton` | main.py:208-213 | after the gate the fetch button exists iff the `CL_INDICATOR_<id>` selection is non-empty |
| `Query.SegmentRoundTrip` | main.py:225-227 | a segment is empty iff nothing is selected and decodes to the selected values in order |
| `Query.DimensionKeyRoundTrip` | main.py:225-228 | the key splits on `.` into the frequency, area and indicator segments, each of which decodes to its selection |
| `Query.DimensionKeyExample` | main.py:225-228 | freq Q and A, area US, indicator NGDP give `Q+A.US.NGDP` |
| `Query.EmptySegmentsExample` | main.py:225-228 | empty frequency and area selections leave empty segments: `..NGDP` |
| `Series.SeriesColumnsIndex` | main.py:238-248 | a series table's columns are Frequency, Area, Indicator and then, when there are observations, Value and Timeperiod |
| `Series.SeriesFrame` | main.py:238-248 | a series with N observations becomes a well-formed table of N + 1 rows |
| `Series.SeriesFrameCells` | main.py:238-248 | row 0 holds FREQ, REF_AREA and INDICATOR, and row k + 1 holds observation k's OBS_VALUE and TIME_PERIOD with no metadata |
| `Series.SeriesFrameHeader` | main.py:238-248 | row 0 holds FREQ, REF_AREA and INDICATOR, and its Value and Timeperiod cells are missing |
| `Series.SeriesFrameRow` | main.py:244-248 | row k + 1 holds observation k's OBS_VALUE and TIME_PERIOD and no attribute of the series |
| `Series.ShapeSeries` | main.py:232-250 | the loop yields one table per `<Series>`, in document order |
| `Series.DropFirstRow` | main.py:374 | dropping row 0 keeps the columns and the other rows in order, and fails when there is no row |
| `Series.KeepCellsMembers` | main.py:375 | the kept columns are exactly the columns not being dropped |
| `Series.DropColumns` | main.py:375 | dropping columns fails iff one is missing; otherwise it keeps every row and exactly the other columns |
| `Series.Projection` | main.py:373-375 | the projection succeeds iff the table has a row and all three metadata columns; it then has one row fewer and exactly the other columns |
| `Series.ProjectionOfSeries` | main.py:410-413 | exporting a shaped series gives back exactly its N observations, in document order, as Value and Timeperiod |
| `Browser.NextIndex` | main.py:316-320 | "Next" advances by one exactly when a later table exists and keeps a valid cursor valid |
| `Browser.PreviousIndex` | main.py:322-326 | "Previous" steps back by one exactly when there is data and the cursor is above 0 |
| `Browser.NextTimesStopsAtLast` | main.py:316-320 | repeated "Next" from a valid cursor walks forward and stops at the last table |
| `Browser.PreviousTimesStopsAtFirst` | main.py:322-326 | repeated "Previous" over non-empty data walks back to 0 from any cursor, a stale one included |
| `Browser.EmptyDataNeverMoves` | main.py:316-326 | over no data neither button moves the cursor |
| `Browser.StaleCursorStaysWithNext` | main.py:316-320 | a cursor past the end is never moved by "Next" |
| `Browser.ShownAt` | main.py:306-307 | nothing is shown without data, the cursor's table is shown when the cursor is in range, and otherwise the lookup fails |
| `Export.Projected` | main.py:373-375 | a cursor past the end raises IndexError, and otherwise the browsed table's projection is taken |
| `Export.CsvExport` | main.py:398-417 | no data reports "no data", a cancelled dialog reports no folder; otherwise the projection of the browsed table (row 0 and the metadata columns dropped) is written to `<folder>/<name>.csv`, or its error (IndexError for a stale cursor) is reported as a failure |
| `Export.SqlExport` | main.py:365-378 | no data reports "no data"; otherwise the named table is replaced by the projection of the browsed table (row 0 and the metadata columns dropped), or its error (IndexError for a stale cursor) is reported as a failure and nothing is replaced |
| `Export.ExportOfShaped` | main.py:398-417 | the shown series of N observations exports as exactly those N rows in order, and a stale cursor exports nothing |
| `App.ImfData.constructor` | main.py:12-36 | the object starts with no catalog, no schema, empty selections, no button, no data and cursor 0 |
| `App.ImfData.LoadDataflows` | main.py:40-60 | on success the catalog is the complete entries sorted by name, a failed request leaves it unchanged, and the object's invariant is kept |
| `App.ImfData.SelectDataflow` | main.py:86-92 | a double click takes the chosen entry's key family id and resets the selections, and with no row selected nothing changes |
| `App.ImfData.SetDatastructures` | main.py:122-128 | selections are cleared and the fetch button removed |
| `App.ImfData.FetchDatastructures` | main.py:94-120 | an empty id changes nothing; a failure empties the codelists and keeps the selections; success resets the three keys and keeps the first expected codelists |
| `App.ImfData.Toggle` | main.py:196-213 | the clicked code's membership flips, other keys are unchanged, no duplicates appear, and the button exists iff an indicator is selected |
| `App.ImfData.FetchData` | main.py:222-253 | the request goes to the selection's URL; success replaces the data by one table per series, failure keeps it, and the cursor is never touched, so a shorter non-empty result leaves it out of range |
| `App.ImfData.ShowNext` | main.py:316-320 | the cursor moves as `NextIndex` says, stays in range when it was, and the object's invariant is kept |
| `App.ImfData.ShowPrevious` | main.py:322-326 | the cursor moves as `PreviousIndex` says, stays in range when it was, and the object's invariant is kept |
| `App.ImfData.Shown` | main.py:305-307 | nothing is shown iff there is no data; otherwise the looked-up table is `display_data[current_index]` when the cursor is in range, with one row more than its series has observations and a `Timeperiod` column iff the series has any |
| `App.ImfData.SaveToCsv` | main.py:398-419 | the shown series' observations are written to `<folder>/<name>.csv`, a cancelled dialog writes nothing, and a stale cursor fails |
| `App.ImfData.SaveToMysql` | main.py:365-378 | the named table is replaced by the shown series' observations, and a stale cursor fails |

## Left out

- The Tkinter interface is not modelled: windows, listboxes, labels, the Treeview, the Toplevel prompts and the folder dialog. The folder dialog is modelled only by its result, with "" standing for a cancelled dialog.
- The display strings (main.py:185, 191, 205, 312) and `print` logging are not modelled; they carry no state.
- Threads and `window.after` are not modelled. Handlers run one after another, so races are not captured. For example, a stale response can overwrite a newer one, or a toggle can land while a schema load is pending.
- `requests.get`, HTTP status handling and the 10-second timeout are not modelled. BeautifulSoup parsing is not modelled either. A fetch is a function from URL to parsed elements or a request error.
- A `<Code>` without `<Description>` or without a `value` attribute, or a `<CodeList>` without `id`, raises an uncaught exception in the worker thread (main.py:112, main.py:116). The parsed records always carry these fields, so that crash is not modelled.
- pandas is not modelled beyond the table shape. CSV text formatting (header line, missing cells written as empty) is left out, and so are the SQL column types.
- SQLAlchemy connection and write failures are foreign I/O. An export's outcome names what would be written, not whether the write succeeded.
- The `datetime.now()` default CSV file name is not modelled. The name is always a parameter, as the prompt passes it.
- `datastructures` is modelled as a map, not as an insertion-ordered dict. Its key order only decides the on-screen column layout in `populate_datastructures`.
- `display_data` starts as `None` in the source and as the empty list here. Every handler tests it only for truthiness, where the two behave the same.
- App.ImfData.SelectDataflow: requires the selected row to be within the catalog, because the listbox shows exactly the catalog rows.
- App.ImfData.Toggle: requires the clicked key to be in both the selections and the codelists, and the indicator key to be in the selections. A click outside these conditions is not modelled: it raises KeyError at main.py:199 or main.py:200 and changes no state; a double click on an empty listbox (a kept codelist with no `<Code>`) leaves `curselection()` empty, so `selected_index[0]` at main.py:200 raises IndexError and changes no state either. The KeyError case happens without any race: when a schema load fails or keeps no codelist, `populate_datastructures` returns at main.py:138-141 without destroying the previous listboxes, which stay clickable after main.py:124 has emptied the selections.
