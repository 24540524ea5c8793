/** What `save_to_csv` (main.py:398-419) and `save_to_mysql` (main.py:365-378)
    would write: the browsed table with row 0 and the metadata columns dropped.
    The write itself is not modelled; the outcome names the target and the table. */
module Export {
  import opened Types
  import opened Series

  datatype ExportOutcome =
    | NoData                                   // "No data to save."
    | NoFolder                                 // the folder dialog was cancelled
    | Failed(error: FrameError)                // caught by `except Exception`
    | WriteCsv(path: string, table: Frame)     // `to_csv(filepath, index=False)`
    | ReplaceTable(name: string, table: Frame) // `to_sql(..., if_exists='replace')`

  predicate AllWellFormed(data: seq<Frame>) {
    forall i :: 0 <= i < |data| ==> WellFormed(data[i])
  }

  /** The projected table of the browsed dataset, or the error raised on the way. */
  function Projected(data: seq<Frame>, index: nat): (r: Result<Frame, FrameError>)
    requires AllWellFormed(data)
    ensures index >= |data| ==> r == Err(IndexError)
    ensures index < |data| ==> r == Projection(data[index])
    ensures r.Ok? ==> index < |data| && |r.value.rows| == |data[index].rows| - 1
  {
    if index >= |data| then Err(IndexError) else Projection(data[index])
  }

  /** `save_to_csv(name)` with the folder the dialog returned ("" if cancelled). */
  function CsvExport(data: seq<Frame>, index: nat, name: string, folder: string): (r: ExportOutcome)
    requires AllWellFormed(data)
    ensures r.NoData? <==> data == []
    ensures r.NoFolder? <==> data != [] && folder == ""
    ensures r.WriteCsv? ==> r.path == folder + "/" + name + ".csv"
    ensures r.WriteCsv? ==> index < |data| && |r.table.rows| == |data[index].rows| - 1
    ensures data != [] && folder != "" && Projected(data, index).Ok? ==>
              r == WriteCsv(folder + "/" + name + ".csv", Projected(data, index).value)
    ensures data != [] && folder != "" && Projected(data, index).Err? ==>
              r == Failed(Projected(data, index).error)
  {
    if data == [] then NoData
    else if folder == "" then NoFolder
    else match Projected(data, index)
      case Err(e) => Failed(e)
      case Ok(t) => WriteCsv(folder + "/" + name + ".csv", t)
  }

  /** `save_to_mysql(..., table_name)`, the connection itself left out. */
  function SqlExport(data: seq<Frame>, index: nat, tableName: string): (r: ExportOutcome)
    requires AllWellFormed(data)
    ensures r.NoData? <==> data == []
    ensures r.ReplaceTable? ==> r.name == tableName
    ensures r.ReplaceTable? ==> index < |data| && |r.table.rows| == |data[index].rows| - 1
    ensures data != [] && Projected(data, index).Ok? ==> r == ReplaceTable(tableName, Projected(data, index).value)
    ensures data != [] && Projected(data, index).Err? ==> r == Failed(Projected(data, index).error)
  {
    if data == [] then NoData
    else match Projected(data, index)
      case Err(e) => Failed(e)
      case Ok(t) => ReplaceTable(tableName, t)
  }

  /** Data that is a list of shaped series. */
  predicate ShapedFrom(data: seq<Frame>, series: seq<SeriesElement>) {
    |data| == |series| && forall i :: 0 <= i < |series| ==> data[i] == SeriesFrame(series[i])
  }

  /** The browsed series of N observations exports as exactly those N
      observations in document order; a cursor past the end exports nothing. */
  lemma ExportOfShaped(data: seq<Frame>, series: seq<SeriesElement>, index: nat, name: string, folder: string, tableName: string)
    requires ShapedFrom(data, series)
    ensures AllWellFormed(data)
    ensures index < |data| ==> Projected(data, index) == Ok(ObservationTable(series[index].obs))
    ensures index < |data| && folder != "" ==>
              CsvExport(data, index, name, folder) == WriteCsv(folder + "/" + name + ".csv", ObservationTable(series[index].obs))
    ensures index < |data| ==> SqlExport(data, index, tableName) == ReplaceTable(tableName, ObservationTable(series[index].obs))
    ensures data != [] && index >= |data| ==> SqlExport(data, index, tableName) == Failed(IndexError)
  {
    if index < |data| {
      ProjectionOfSeries(series[index]);
    }
  }
}
