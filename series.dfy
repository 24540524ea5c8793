/** The per-series tables of `_fetch_data_thread` (main.py:232-250) and the
    row/column projection of `save_to_mysql` / `save_to_csv` (main.py:373-375,
    410-413), with a DataFrame modelled as named columns over rows of cells. */
module Series {
  import opened Types

  /** The keys of the metadata row, in the order the dictionary lists them. */
  const MetaColumns: seq<string> := ["Frequency", "Area", "Indicator"]

  /** The keys of an observation row, in the order the dictionary lists them. */
  const ObsColumns: seq<string> := ["Value", "Timeperiod"]

  /** Position of the first column of that name, if any. */
  function ColumnIndex(columns: seq<string>, name: string): (r: Option<nat>)
    ensures r.Some? <==> name in columns
    ensures r.Some? ==> r.value < |columns| && columns[r.value] == name
    decreases |columns|
  {
    if columns == [] then None
    else if columns[0] == name then Some(0)
    else match ColumnIndex(columns[1..], name)
      case None => None
      case Some(j) => Some(j + 1)
  }

  /** `df.iloc[row][name]`: the cell of that row under that column. */
  function CellAt(f: Frame, row: nat, name: string): Cell
    requires WellFormed(f) && row < |f.rows| && name in f.columns
  {
    f.rows[row][ColumnIndex(f.columns, name).value]
  }

  /** The columns of a series table: the observation keys appear only when
      some row carries them. */
  function SeriesColumns(hasObs: bool): seq<string> {
    MetaColumns + (if hasObs then ObsColumns else [])
  }

  lemma SeriesColumnsIndex(hasObs: bool)
    ensures ColumnIndex(SeriesColumns(hasObs), "Frequency") == Some(0)
    ensures ColumnIndex(SeriesColumns(hasObs), "Area") == Some(1)
    ensures ColumnIndex(SeriesColumns(hasObs), "Indicator") == Some(2)
    ensures hasObs ==> ColumnIndex(SeriesColumns(hasObs), "Value") == Some(3)
    ensures hasObs ==> ColumnIndex(SeriesColumns(hasObs), "Timeperiod") == Some(4)
  {
    var cols := SeriesColumns(hasObs);
    assert cols[1..][0] == "Area";
    assert cols[1..][1..][0] == "Indicator";
    if hasObs {
      var tail := cols[1..][1..][1..];
      assert tail == ObsColumns;
      assert ColumnIndex(tail, "Value") == Some(0);
      assert ColumnIndex(tail, "Timeperiod") == Some(1) by { assert tail[1..] == ["Timeperiod"]; }
    }
  }

  /** `pd.DataFrame(data)` for the list built at main.py:238-247: the columns
      are the dictionary keys in order of first appearance, so the two
      observation columns exist only when there is an observation; a key a row
      lacks is a missing cell. */
  function SeriesFrame(s: SeriesElement): (f: Frame)
    ensures WellFormed(f)
    ensures |f.rows| == |s.obs| + 1
  {
    var pad: seq<Cell> := if s.obs == [] then [] else [None, None];
    var meta: seq<Cell> := [s.freq, s.refArea, s.indicator] + pad;
    Frame(SeriesColumns(s.obs != []),
          [meta] + seq(|s.obs|, k requires 0 <= k < |s.obs| =>
                         [None, None, None, s.obs[k].obsValue, s.obs[k].timePeriod]))
  }

  /** Row 0 holds the series' attributes, and its observation cells are missing. */
  lemma SeriesFrameHeader(s: SeriesElement)
    ensures forall c :: c in MetaColumns ==> c in SeriesFrame(s).columns
    ensures CellAt(SeriesFrame(s), 0, "Frequency") == s.freq
    ensures CellAt(SeriesFrame(s), 0, "Area") == s.refArea
    ensures CellAt(SeriesFrame(s), 0, "Indicator") == s.indicator
    ensures s.obs != [] ==> forall c :: c in ObsColumns ==> c in SeriesFrame(s).columns
    ensures s.obs != [] ==> CellAt(SeriesFrame(s), 0, "Value") == None
    ensures s.obs != [] ==> CellAt(SeriesFrame(s), 0, "Timeperiod") == None
  {
    SeriesColumnsIndex(s.obs != []);
    var f := SeriesFrame(s);
    var meta: seq<Cell> := [s.freq, s.refArea, s.indicator] + (if s.obs == [] then [] else [None, None]);
    assert f.rows[0] == meta;
    assert meta[0] == s.freq && meta[1] == s.refArea && meta[2] == s.indicator;
    assert s.obs != [] ==> meta[3] == None && meta[4] == None;
  }

  /** Row k + 1 holds observation k and no attribute of the series. */
  lemma SeriesFrameRow(s: SeriesElement, k: nat)
    requires k < |s.obs|
    ensures CellAt(SeriesFrame(s), k + 1, "Value") == s.obs[k].obsValue
    ensures CellAt(SeriesFrame(s), k + 1, "Timeperiod") == s.obs[k].timePeriod
    ensures CellAt(SeriesFrame(s), k + 1, "Frequency") == None
    ensures CellAt(SeriesFrame(s), k + 1, "Area") == None
    ensures CellAt(SeriesFrame(s), k + 1, "Indicator") == None
  {
    SeriesColumnsIndex(true);
    assert SeriesFrame(s).rows[k + 1] == [None, None, None, s.obs[k].obsValue, s.obs[k].timePeriod];
  }

  /** Row 0 names the series; row k + 1 holds observation k, in document order. */
  lemma SeriesFrameCells(s: SeriesElement)
    ensures forall c :: c in MetaColumns ==> c in SeriesFrame(s).columns
    ensures CellAt(SeriesFrame(s), 0, "Frequency") == s.freq
    ensures CellAt(SeriesFrame(s), 0, "Area") == s.refArea
    ensures CellAt(SeriesFrame(s), 0, "Indicator") == s.indicator
    ensures s.obs != [] ==> forall c :: c in ObsColumns ==> c in SeriesFrame(s).columns
    ensures s.obs != [] ==> CellAt(SeriesFrame(s), 0, "Value") == None
    ensures s.obs != [] ==> CellAt(SeriesFrame(s), 0, "Timeperiod") == None
    ensures forall k :: 0 <= k < |s.obs| ==>
              && CellAt(SeriesFrame(s), k + 1, "Value") == s.obs[k].obsValue
              && CellAt(SeriesFrame(s), k + 1, "Timeperiod") == s.obs[k].timePeriod
              && CellAt(SeriesFrame(s), k + 1, "Frequency") == None
              && CellAt(SeriesFrame(s), k + 1, "Area") == None
              && CellAt(SeriesFrame(s), k + 1, "Indicator") == None
  {
    SeriesFrameHeader(s);
    forall k | 0 <= k < |s.obs|
      ensures && CellAt(SeriesFrame(s), k + 1, "Value") == s.obs[k].obsValue
              && CellAt(SeriesFrame(s), k + 1, "Timeperiod") == s.obs[k].timePeriod
              && CellAt(SeriesFrame(s), k + 1, "Frequency") == None
              && CellAt(SeriesFrame(s), k + 1, "Area") == None
              && CellAt(SeriesFrame(s), k + 1, "Indicator") == None
    {
      SeriesFrameRow(s, k);
    }
  }

  /** The loop of main.py:234-249: one table per `<Series>`, in document order. */
  method ShapeSeries(series: seq<SeriesElement>) returns (output: seq<Frame>)
    ensures |output| == |series|
    ensures forall i :: 0 <= i < |series| ==> output[i] == SeriesFrame(series[i])
  {
    output := [];
    for i := 0 to |series|
      invariant |output| == i
      invariant forall j :: 0 <= j < i ==> output[j] == SeriesFrame(series[j])
    {
      output := output + [SeriesFrame(series[i])];
    }
  }

  /** `df.drop(0, axis=0)`: drop the row labelled 0; pandas raises KeyError
      when there is none. */
  function DropFirstRow(f: Frame): (r: Result<Frame, FrameError>)
    ensures r.Ok? <==> f.rows != []
    ensures r.Ok? ==> r.value.columns == f.columns && |r.value.rows| == |f.rows| - 1
    ensures r.Ok? ==> forall i :: 0 <= i < |r.value.rows| ==> r.value.rows[i] == f.rows[i + 1]
  {
    if f.rows == [] then Err(KeyError) else Ok(Frame(f.columns, f.rows[1..]))
  }

  /** How many columns survive dropping `names`. */
  function KeptCount(columns: seq<string>, names: seq<string>): nat
    decreases |columns|
  {
    if columns == [] then 0
    else (if columns[0] in names then 0 else 1) + KeptCount(columns[1..], names)
  }

  /** The cells of one row (or the column names themselves) under the columns
      not named in `names`, in order. */
  function KeepCells<T>(columns: seq<string>, row: seq<T>, names: seq<string>): (r: seq<T>)
    requires |row| == |columns|
    ensures |r| == KeptCount(columns, names)
    decreases |columns|
  {
    if columns == [] then []
    else (if columns[0] in names then [] else [row[0]]) + KeepCells(columns[1..], row[1..], names)
  }

  lemma {:induction false} KeepCellsMembers(columns: seq<string>, names: seq<string>, c: string)
    ensures c in KeepCells(columns, columns, names) <==> c in columns && c !in names
    decreases |columns|
  {
    if columns != [] {
      KeepCellsMembers(columns[1..], names, c);
      assert columns == [columns[0]] + columns[1..];
    }
  }

  /** `df.drop(columns=names)`: KeyError if one of them is not a column;
      otherwise every row keeps the cells of the other columns, in order. */
  function DropColumns(f: Frame, names: seq<string>): (r: Result<Frame, FrameError>)
    requires WellFormed(f)
    ensures r.Ok? <==> forall n :: n in names ==> n in f.columns
    ensures r.Ok? ==> WellFormed(r.value) && |r.value.rows| == |f.rows|
    ensures r.Ok? ==> forall c :: c in r.value.columns <==> c in f.columns && c !in names
  {
    if exists n :: n in names && n !in f.columns then Err(KeyError)
    else
      var r := Frame(KeepCells(f.columns, f.columns, names),
                     seq(|f.rows|, i requires 0 <= i < |f.rows| => KeepCells(f.columns, f.rows[i], names)));
      assert forall c :: c in r.columns <==> c in f.columns && c !in names by {
        forall c ensures c in r.columns <==> c in f.columns && c !in names {
          KeepCellsMembers(f.columns, names, c);
        }
      }
      Ok(r)
  }

  /** The table handed to `to_sql` / `to_csv`: row 0 and the three metadata
      columns dropped. */
  function Projection(f: Frame): (r: Result<Frame, FrameError>)
    requires WellFormed(f)
    ensures r.Ok? <==> f.rows != [] && forall n :: n in MetaColumns ==> n in f.columns
    ensures r.Ok? ==> WellFormed(r.value) && |r.value.rows| == |f.rows| - 1
    ensures r.Ok? ==> forall c :: c in r.value.columns <==> c in f.columns && c !in MetaColumns
  {
    match DropFirstRow(f)
    case Err(e) => Err(e)
    case Ok(g) => DropColumns(g, MetaColumns)
  }

  /** The observations of a series as the exported table: columns `Value`,
      `Timeperiod` (none when there is no observation), one row each. */
  function ObservationTable(obs: seq<ObsElement>): (f: Frame)
    ensures WellFormed(f) && |f.rows| == |obs|
  {
    Frame(if obs == [] then [] else ObsColumns,
          seq(|obs|, k requires 0 <= k < |obs| => [obs[k].obsValue, obs[k].timePeriod]))
  }

  lemma KeepSkipsMeta<T>(cols: seq<string>, row: seq<T>)
    requires |row| == |cols| && |cols| >= 3 && cols[..3] == MetaColumns
    ensures KeepCells(cols, row, MetaColumns) == KeepCells(cols[3..], row[3..], MetaColumns)
  {
    assert cols[0] == "Frequency" && cols[1] == "Area" && cols[2] == "Indicator";
    assert KeepCells(cols, row, MetaColumns) == KeepCells(cols[1..], row[1..], MetaColumns);
    assert cols[1..][1..] == cols[2..] && row[1..][1..] == row[2..];
    assert KeepCells(cols[1..], row[1..], MetaColumns) == KeepCells(cols[2..], row[2..], MetaColumns);
    assert cols[2..][1..] == cols[3..] && row[2..][1..] == row[3..];
  }

  lemma KeepObsColumns<T>(row: seq<T>)
    requires |row| == 2
    ensures KeepCells(ObsColumns, row, MetaColumns) == row
  {
    assert "Value" !in MetaColumns && "Timeperiod" !in MetaColumns;
    assert ObsColumns[1..][1..] == [] && row[1..][1..] == [];
    assert KeepCells(ObsColumns[1..], row[1..], MetaColumns) == [row[1]];
  }

  /** Dropping the metadata columns from a row of a shaped series keeps its
      last two cells, or nothing when the series has no observation. */
  lemma KeepObsCells<T>(s: SeriesElement, row: seq<T>)
    requires |row| == |SeriesFrame(s).columns|
    ensures KeepCells(SeriesFrame(s).columns, row, MetaColumns) == if s.obs == [] then [] else row[3..]
  {
    var cols := SeriesFrame(s).columns;
    assert cols[..3] == MetaColumns;
    KeepSkipsMeta(cols, row);
    if s.obs != [] {
      assert cols[3..] == ObsColumns;
      KeepObsColumns(row[3..]);
    } else {
      assert cols[3..] == [];
    }
  }

  /** Exporting a shaped series gives back exactly its observations: N
      observations export as N rows, in document order, columns `Value` and
      `Timeperiod`. */
  lemma ProjectionOfSeries(s: SeriesElement)
    ensures Projection(SeriesFrame(s)) == Ok(ObservationTable(s.obs))
  {
    var f := SeriesFrame(s);
    var g := Frame(f.columns, f.rows[1..]);
    assert DropFirstRow(f) == Ok(g);
    assert !(exists n :: n in MetaColumns && n !in g.columns);
    var want := ObservationTable(s.obs);
    KeepObsCells(s, f.columns);
    var rows := seq(|g.rows|, i requires 0 <= i < |g.rows| => KeepCells(g.columns, g.rows[i], MetaColumns));
    assert DropColumns(g, MetaColumns) == Ok(Frame(KeepCells(g.columns, g.columns, MetaColumns), rows));
    assert KeepCells(g.columns, g.columns, MetaColumns) == want.columns;
    forall k | 0 <= k < |rows| ensures rows[k] == want.rows[k] {
      assert g.rows[k] == f.rows[k + 1] == [None, None, None, s.obs[k].obsValue, s.obs[k].timePeriod];
      KeepObsCells(s, f.rows[k + 1]);
    }
    assert rows == want.rows;
  }
}
