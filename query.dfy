/** The query path of `_fetch_data_thread` (main.py:225-228): each dimension's
    selected values joined with `+`, the three dimensions joined with `.` in the
    order frequency, area, indicator. */
module Query {
  import opened Types
  import opened Strings
  import opened Schema

  const DataUrlPrefix := "http://dataservices.imf.org/REST/SDMX_XML.svc/"

  /** The `value` fields of the selected codes, in selection order. */
  function Values(chosen: seq<CodeEntry>): (r: seq<string>)
    ensures |r| == |chosen|
    ensures forall i :: 0 <= i < |r| ==> r[i] == chosen[i].value
  {
    seq(|chosen|, i requires 0 <= i < |chosen| => chosen[i].value)
  }

  /** One dimension of the key: `"+".join(...)`. */
  function Segment(chosen: seq<CodeEntry>): string {
    Join('+', Values(chosen))
  }

  /** `f"{freq}.{area}.{indicator}"`. */
  function DimensionKey(freq: seq<CodeEntry>, area: seq<CodeEntry>, indicator: seq<CodeEntry>): string {
    Segment(freq) + "." + Segment(area) + "." + Segment(indicator)
  }

  /** The path below the service root for the current selection. */
  function DataPath(keyFamilyId: string, attributes: map<string, seq<CodeEntry>>): string
    requires FreqKey in attributes && AreaKey(keyFamilyId) in attributes && IndicatorKey(keyFamilyId) in attributes
  {
    "CompactData/" + keyFamilyId + "/"
      + DimensionKey(attributes[FreqKey], attributes[AreaKey(keyFamilyId)], attributes[IndicatorKey(keyFamilyId)])
  }

  function DataUrl(keyFamilyId: string, attributes: map<string, seq<CodeEntry>>): string
    requires FreqKey in attributes && AreaKey(keyFamilyId) in attributes && IndicatorKey(keyFamilyId) in attributes
  {
    DataUrlPrefix + DataPath(keyFamilyId, attributes)
  }

  /** How the service reads one dimension back: empty means every code. */
  function DecodeSegment(segment: string): seq<string> {
    if segment == "" then [] else Split('+', segment)
  }

  /** Codes usable in a key: non-empty, without the two separators. */
  predicate PlainValues(chosen: seq<CodeEntry>) {
    forall i :: 0 <= i < |chosen| ==> chosen[i].value != "" && '+' !in chosen[i].value && '.' !in chosen[i].value
  }

  /** Reading a segment back gives the selected values in selection order, and
      an empty selection gives an empty segment. */
  lemma SegmentRoundTrip(chosen: seq<CodeEntry>)
    requires PlainValues(chosen)
    ensures '.' !in Segment(chosen)
    ensures Segment(chosen) == "" <==> chosen == []
    ensures DecodeSegment(Segment(chosen)) == Values(chosen)
  {
    var vs := Values(chosen);
    JoinAvoids('+', '.', vs);
    JoinEmptyIff('+', vs);
    if chosen != [] {
      SplitJoin('+', vs);
    }
  }

  /** The key splits on `.` into exactly the three segments, in the order
      frequency, area, indicator, and each segment reads back as its selection. */
  lemma DimensionKeyRoundTrip(freq: seq<CodeEntry>, area: seq<CodeEntry>, indicator: seq<CodeEntry>)
    requires PlainValues(freq) && PlainValues(area) && PlainValues(indicator)
    ensures Split('.', DimensionKey(freq, area, indicator)) == [Segment(freq), Segment(area), Segment(indicator)]
    ensures DecodeSegment(Segment(freq)) == Values(freq)
    ensures DecodeSegment(Segment(area)) == Values(area)
    ensures DecodeSegment(Segment(indicator)) == Values(indicator)
  {
    SegmentRoundTrip(freq);
    SegmentRoundTrip(area);
    SegmentRoundTrip(indicator);
    var f, a, i := Segment(freq), Segment(area), Segment(indicator);
    SplitJoin('.', [f, a, i]);
    assert Join('.', [f, a, i]) == f + "." + a + "." + i by {
      assert [f, a, i][1..] == [a, i];
      assert [a, i][1..] == [i];
      assert Join('.', [a, i]) == a + "." + i;
      assert Join('.', [f, a, i]) == f + "." + Join('.', [a, i]);
    }
  }

  /** Frequencies Q and A, area US and indicator NGDP give `Q+A.US.NGDP`. */
  lemma DimensionKeyExample(q: CodeEntry, a: CodeEntry, us: CodeEntry, ngdp: CodeEntry)
    requires q.value == "Q" && a.value == "A" && us.value == "US" && ngdp.value == "NGDP"
    ensures DimensionKey([q, a], [us], [ngdp]) == "Q+A.US.NGDP"
  {
    assert Values([q, a]) == ["Q", "A"];
    assert Values([us]) == ["US"];
    assert Values([ngdp]) == ["NGDP"];
    assert ["Q", "A"][1..] == ["A"];
  }

  /** With nothing chosen for frequency and area the key reads `..<indicator>`. */
  lemma EmptySegmentsExample(ngdp: CodeEntry)
    requires ngdp.value == "NGDP"
    ensures DimensionKey([], [], [ngdp]) == "..NGDP"
  {
    assert Values([ngdp]) == ["NGDP"];
  }
}
