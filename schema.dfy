/** The codelist selection of `fetch_datastructures` (main.py:94-120): of the
    `<CodeList>` elements of a data-structure response, keep the first one for
    each of the three ids the client expects. */
module Schema {
  import opened Types

  const StructureUrlPrefix := "http://dataservices.imf.org/REST/SDMX_XML.svc/DataStructure/"

  const FreqKey := "CL_FREQ"

  function IndicatorKey(keyFamilyId: string): string { "CL_INDICATOR_" + keyFamilyId }

  function AreaKey(keyFamilyId: string): string { "CL_AREA_" + keyFamilyId }

  /** The `ids` set of main.py:107. */
  function ExpectedIds(keyFamilyId: string): set<string> {
    {FreqKey, IndicatorKey(keyFamilyId), AreaKey(keyFamilyId)}
  }

  /** The three roles never share a key, whatever the key family id. */
  lemma ExpectedIdsDistinct(keyFamilyId: string)
    ensures FreqKey != IndicatorKey(keyFamilyId)
    ensures FreqKey != AreaKey(keyFamilyId)
    ensures IndicatorKey(keyFamilyId) != AreaKey(keyFamilyId)
    ensures |ExpectedIds(keyFamilyId)| == 3
  {
    assert FreqKey[3] == 'F';
    assert IndicatorKey(keyFamilyId)[3] == 'I';
    assert AreaKey(keyFamilyId)[3] == 'A';
  }

  /** Some codelist of the response has this id. */
  predicate HasId(lists: seq<CodeListElement>, id: string) {
    exists i :: 0 <= i < |lists| && lists[i].id == id
  }

  /** The codes of the first codelist with this id. */
  function FirstCodes(lists: seq<CodeListElement>, id: string): seq<CodeEntry>
    requires HasId(lists, id)
    decreases |lists|
  {
    if lists[0].id == id then lists[0].codes
    else
      assert HasId(lists[1..], id) by {
        var i :| 0 <= i < |lists| && lists[i].id == id;
        assert lists[1..][i - 1] == lists[i];
      }
      FirstCodes(lists[1..], id)
  }

  /** What the loop of main.py:111-116 leaves in `datastructures`, having read
      `lists` with `pending` ids still wanted and `acc` collected so far. */
  function Scan(lists: seq<CodeListElement>, pending: set<string>, acc: map<string, seq<CodeEntry>>)
    : map<string, seq<CodeEntry>>
    decreases |lists|
  {
    if lists == [] then acc
    else if lists[0].id in pending
    then Scan(lists[1..], pending - {lists[0].id}, acc[lists[0].id := lists[0].codes])
    else Scan(lists[1..], pending, acc)
  }

  function KeptCodelists(lists: seq<CodeListElement>, expected: set<string>): map<string, seq<CodeEntry>> {
    Scan(lists, expected, map[])
  }

  lemma {:induction false} ScanSpec(lists: seq<CodeListElement>, pending: set<string>,
                                    acc: map<string, seq<CodeEntry>>, k: string)
    requires acc.Keys !! pending
    ensures k in Scan(lists, pending, acc) <==> k in acc || (k in pending && HasId(lists, k))
    ensures k in acc ==> Scan(lists, pending, acc)[k] == acc[k]
    ensures k in pending && HasId(lists, k) ==> Scan(lists, pending, acc)[k] == FirstCodes(lists, k)
    decreases |lists|
  {
    if lists != [] {
      var id := lists[0].id;
      assert HasId(lists, k) <==> id == k || HasId(lists[1..], k) by {
        if HasId(lists, k) && id != k {
          var i :| 0 <= i < |lists| && lists[i].id == k;
          assert lists[1..][i - 1] == lists[i];
        }
        if HasId(lists[1..], k) {
          var i :| 0 <= i < |lists[1..]| && lists[1..][i].id == k;
          assert lists[i + 1] == lists[1..][i];
        }
      }
      if id in pending {
        ScanSpec(lists[1..], pending - {id}, acc[id := lists[0].codes], k);
      } else {
        ScanSpec(lists[1..], pending, acc, k);
      }
    }
  }

  /** Exactly the expected ids that occur are kept, each with the codes of its
      first occurrence in document order. */
  lemma KeptCodelistsSpec(lists: seq<CodeListElement>, expected: set<string>)
    ensures forall k :: k in KeptCodelists(lists, expected) <==> k in expected && HasId(lists, k)
    ensures forall k :: k in KeptCodelists(lists, expected) ==>
              HasId(lists, k) && KeptCodelists(lists, expected)[k] == FirstCodes(lists, k)
  {
    forall k ensures k in KeptCodelists(lists, expected) <==> k in expected && HasId(lists, k)
      ensures k in KeptCodelists(lists, expected) ==>
              HasId(lists, k) && KeptCodelists(lists, expected)[k] == FirstCodes(lists, k)
    {
      ScanSpec(lists, expected, map[], k);
    }
  }

  /** The loop of main.py:111-116, discarding each id once it has been seen. */
  method SelectCodelists(codelists: seq<CodeListElement>, expected: set<string>)
    returns (datastructures: map<string, seq<CodeEntry>>)
    ensures datastructures == KeptCodelists(codelists, expected)
  {
    var ids := expected;
    datastructures := map[];
    for i := 0 to |codelists|
      invariant Scan(codelists[i..], ids, datastructures) == KeptCodelists(codelists, expected)
    {
      var codelist := codelists[i];
      assert codelists[i..][0] == codelist && codelists[i..][1..] == codelists[i + 1..];
      if codelist.id in ids {
        ids := ids - {codelist.id};
        datastructures := datastructures[codelist.id := codelist.codes];
      }
    }
  }

  /** A response that lacks `CL_INDICATOR_BOP` loads the other two lists only. */
  lemma MissingIndicatorExample(freq: seq<CodeEntry>, area: seq<CodeEntry>)
    ensures KeptCodelists([CodeListElement(FreqKey, freq), CodeListElement(AreaKey("BOP"), area)],
                          ExpectedIds("BOP"))
         == map[FreqKey := freq, AreaKey("BOP") := area]
  {
    ExpectedIdsDistinct("BOP");
    var lists := [CodeListElement(FreqKey, freq), CodeListElement(AreaKey("BOP"), area)];
    var ids := ExpectedIds("BOP");
    var m1 := map[FreqKey := freq];
    assert Scan(lists, ids, map[]) == Scan(lists[1..], ids - {FreqKey}, m1);
    assert AreaKey("BOP") in ids - {FreqKey};
    assert Scan(lists[1..], ids - {FreqKey}, m1)
        == Scan([], ids - {FreqKey} - {AreaKey("BOP")}, m1[AreaKey("BOP") := area]);
  }
}
