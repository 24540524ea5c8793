/** Records shared by every part of the model: the parsed response elements that
    the HTTP client and the XML parser hand to main.py, the records main.py builds
    from them, and a small tabular value standing for a pandas DataFrame. */
module Types {

  datatype Option<T> = None | Some(value: T)

  datatype Result<T, E> = Ok(value: T) | Err(error: E)

  /** A `requests.exceptions.RequestException`: connection failure, HTTP error
      status (where `raise_for_status` is called) or timeout. */
  datatype RequestError = RequestError(message: string)

  /** The HTTP GET plus XML parse of one endpoint, as seen by main.py: the parsed
      elements of the response, or the request failure. */
  type Fetch<T> = string -> Result<T, RequestError>

  /** One code of a codelist, `{"Description": ..., "value": ...}`.
      Python compares such dictionaries field by field, as `==` does here. */
  datatype CodeEntry = CodeEntry(description: string, value: string)

  /** One catalog entry, `{"name": ..., "key_family_id": ...}`. */
  datatype DataflowSummary = DataflowSummary(name: string, keyFamilyId: string)

  /** A parsed `<Dataflow>` element: the text of its first `<Name>` and first
      `<KeyFamilyID>` descendant, when there is one. */
  datatype DataflowElement = DataflowElement(name: Option<string>, keyFamilyId: Option<string>)

  /** A parsed `<CodeList>` element: its `id` attribute and its `<Code>`
      children, each read as `Description` text and `value` attribute. */
  datatype CodeListElement = CodeListElement(id: string, codes: seq<CodeEntry>)

  /** A parsed `<Obs>` element: its `OBS_VALUE` and `TIME_PERIOD` attributes. */
  datatype ObsElement = ObsElement(obsValue: Option<string>, timePeriod: Option<string>)

  /** A parsed `<Series>` element: its `FREQ`, `REF_AREA` and `INDICATOR`
      attributes and its `<Obs>` children in document order. */
  datatype SeriesElement = SeriesElement(
    freq: Option<string>, refArea: Option<string>, indicator: Option<string>,
    obs: seq<ObsElement>)

  /** A cell of a DataFrame: a string, or missing (Python `None` / NaN). */
  type Cell = Option<string>

  /** A DataFrame: named columns and rows of cells, row label = position. */
  datatype Frame = Frame(columns: seq<string>, rows: seq<seq<Cell>>)

  /** Every row has one cell per column. */
  predicate WellFormed(f: Frame) {
    forall i :: 0 <= i < |f.rows| ==> |f.rows[i]| == |f.columns|
  }

  /** The error pandas raises when a row label or a column name is not there. */
  datatype FrameError = KeyError | IndexError
}
