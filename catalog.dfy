/** The catalog load of `fetch_dataflows` (main.py:40-60): keep the parsed
    `<Dataflow>` elements that have both a name and a key family id, then sort
    them by name with Python's stable `sorted`. */
module Catalog {
  import opened Types
  import opened Strings

  const DataflowUrl := "http://dataservices.imf.org/REST/SDMX_XML.svc/Dataflow"

  /** The summary an element contributes: none unless both fields are present. */
  function Summarize(e: DataflowElement): seq<DataflowSummary> {
    if e.name.Some? && e.keyFamilyId.Some?
    then [DataflowSummary(e.name.value, e.keyFamilyId.value)]
    else []
  }

  /** The list that the loop of main.py:47-55 appends to, as a function of the
      elements it has read so far. */
  function Complete(elems: seq<DataflowElement>): seq<DataflowSummary>
    decreases |elems|
  {
    if elems == [] then []
    else Complete(elems[..|elems| - 1]) + Summarize(elems[|elems| - 1])
  }

  /** `d` is the summary of `e`: the element carries both its name and its key family id. */
  predicate FromElement(d: DataflowSummary, e: DataflowElement) {
    e.name == Some(d.name) && e.keyFamilyId == Some(d.keyFamilyId)
  }

  /** A summary is collected exactly when some element carries both its fields. */
  lemma {:induction false} CompleteMembers(elems: seq<DataflowElement>, d: DataflowSummary)
    ensures d in Complete(elems) <==> exists i :: 0 <= i < |elems| && FromElement(d, elems[i])
    decreases |elems|
  {
    if elems != [] {
      var init := elems[..|elems| - 1];
      CompleteMembers(init, d);
      if d in Complete(init) {
        var i :| 0 <= i < |init| && FromElement(d, init[i]);
        assert elems[i] == init[i];
      }
      if exists i :: 0 <= i < |elems| && FromElement(d, elems[i]) {
        var i :| 0 <= i < |elems| && FromElement(d, elems[i]);
        if i < |init| {
          assert init[i] == elems[i];
        }
      }
    }
  }

  /** Complete elements are all kept: nothing is dropped but incomplete ones. */
  lemma {:induction false} CompleteLength(elems: seq<DataflowElement>)
    ensures |Complete(elems)| <= |elems|
    ensures |Complete(elems)| == |elems| <==>
              forall i :: 0 <= i < |elems| ==> elems[i].name.Some? && elems[i].keyFamilyId.Some?
    decreases |elems|
  {
    if elems != [] {
      var init := elems[..|elems| - 1];
      CompleteLength(init);
      if forall i :: 0 <= i < |elems| ==> elems[i].name.Some? && elems[i].keyFamilyId.Some? {
        assert forall i :: 0 <= i < |init| ==> init[i] == elems[i];
      }
    }
  }

  /** The loop of main.py:47-55. */
  method CollectDataflows(elems: seq<DataflowElement>) returns (dataflows: seq<DataflowSummary>)
    ensures dataflows == Complete(elems)
  {
    dataflows := [];
    var i := 0;
    while i < |elems|
      invariant 0 <= i <= |elems|
      invariant dataflows == Complete(elems[..i])
    {
      var e := elems[i];
      if e.name.Some? && e.keyFamilyId.Some? {
        dataflows := dataflows + [DataflowSummary(e.name.value, e.keyFamilyId.value)];
      }
      assert elems[..i + 1][..i] == elems[..i];
      i := i + 1;
    }
    assert elems[..|elems|] == elems;
  }

  /** Ascending by name. */
  predicate SortedByName(s: seq<DataflowSummary>) {
    forall i, j :: 0 <= i < j < |s| ==> LexLessEq(s[i].name, s[j].name)
  }

  /** The entries of `s` with the given name, in order. */
  function WithName(s: seq<DataflowSummary>, name: string): seq<DataflowSummary>
    decreases |s|
  {
    if s == [] then []
    else (if s[0].name == name then [s[0]] else []) + WithName(s[1..], name)
  }

  /** Put `d` before the first entry whose name is not smaller than its own. */
  function Insert(d: DataflowSummary, s: seq<DataflowSummary>): seq<DataflowSummary>
    decreases |s|
  {
    if s == [] || LexLessEq(d.name, s[0].name) then [d] + s
    else [s[0]] + Insert(d, s[1..])
  }

  /** `sorted(dataflows, key=lambda item: item['name'])`, as a stable insertion sort. */
  function SortByName(s: seq<DataflowSummary>): seq<DataflowSummary>
    decreases |s|
  {
    if s == [] then [] else Insert(s[0], SortByName(s[1..]))
  }

  lemma {:induction false} InsertMultiset(d: DataflowSummary, s: seq<DataflowSummary>)
    ensures multiset(Insert(d, s)) == multiset(s) + multiset{d}
    decreases |s|
  {
    if s != [] && !LexLessEq(d.name, s[0].name) {
      InsertMultiset(d, s[1..]);
      assert s == [s[0]] + s[1..];
    }
  }

  /** A sorted list stays sorted under a smallest new head. */
  lemma ConsSorted(x: DataflowSummary, t: seq<DataflowSummary>)
    requires SortedByName(t)
    requires forall j :: 0 <= j < |t| ==> LexLessEq(x.name, t[j].name)
    ensures SortedByName([x] + t)
  {
    var r := [x] + t;
    forall i, j | 0 <= i < j < |r| ensures LexLessEq(r[i].name, r[j].name) {
      if i > 0 {
        assert r[i] == t[i - 1] && r[j] == t[j - 1];
      }
    }
  }

  lemma {:induction false} InsertSorted(d: DataflowSummary, s: seq<DataflowSummary>)
    requires SortedByName(s)
    ensures SortedByName(Insert(d, s))
    decreases |s|
  {
    if s == [] || LexLessEq(d.name, s[0].name) {
      forall j | 0 <= j < |s| ensures LexLessEq(d.name, s[j].name) {
        if j > 0 {
          LexTransitive(d.name, s[0].name, s[j].name);
        }
      }
      ConsSorted(d, s);
    } else {
      LexTotal(d.name, s[0].name);
      InsertSorted(d, s[1..]);
      InsertMultiset(d, s[1..]);
      var t := Insert(d, s[1..]);
      forall j | 0 <= j < |t| ensures LexLessEq(s[0].name, t[j].name) {
        assert t[j] in multiset(t);
        if t[j] != d {
          assert t[j] in multiset(s[1..]);
          var k :| 0 <= k < |s[1..]| && s[1..][k] == t[j];
          assert s[k + 1] == t[j];
        }
      }
      ConsSorted(s[0], t);
    }
  }

  /** The sort returns the same entries, ascending by name. */
  lemma {:induction false} SortByNameSorted(s: seq<DataflowSummary>)
    ensures SortedByName(SortByName(s))
    ensures multiset(SortByName(s)) == multiset(s)
    decreases |s|
  {
    if s != [] {
      SortByNameSorted(s[1..]);
      InsertSorted(s[0], SortByName(s[1..]));
      InsertMultiset(s[0], SortByName(s[1..]));
      assert s == [s[0]] + s[1..];
    }
  }

  lemma {:induction false} InsertWithName(d: DataflowSummary, s: seq<DataflowSummary>, name: string)
    ensures WithName(Insert(d, s), name) == WithName([d] + s, name)
    decreases |s|
  {
    if s != [] && !LexLessEq(d.name, s[0].name) {
      InsertWithName(d, s[1..], name);
      // s[0] is strictly greater than d, so the two never share a name
      if s[0].name == d.name {
        LexReflexive(d.name);
      }
      assert ([s[0]] + Insert(d, s[1..]))[1..] == Insert(d, s[1..]);
      assert ([d] + s[1..])[1..] == s[1..];
      assert ([d] + s)[1..] == s;
      assert (s[1..])[..] == s[1..];
      calc {
        WithName(Insert(d, s), name);
        (if s[0].name == name then [s[0]] else []) + WithName(Insert(d, s[1..]), name);
        (if s[0].name == name then [s[0]] else []) + WithName([d] + s[1..], name);
        (if s[0].name == name then [s[0]] else []) + (if d.name == name then [d] else []) + WithName(s[1..], name);
        (if d.name == name then [d] else []) + (if s[0].name == name then [s[0]] else []) + WithName(s[1..], name);
        WithName([d] + s, name);
      }
    }
  }

  /** Stability: the entries sharing any one name keep their input order. */
  lemma {:induction false} SortByNameStable(s: seq<DataflowSummary>, name: string)
    ensures WithName(SortByName(s), name) == WithName(s, name)
    decreases |s|
  {
    if s != [] {
      SortByNameStable(s[1..], name);
      InsertWithName(s[0], SortByName(s[1..]), name);
      assert ([s[0]] + SortByName(s[1..]))[1..] == SortByName(s[1..]);
    }
  }

  /** The catalog main.py stores: the complete entries, sorted by name. */
  function CatalogOf(elems: seq<DataflowElement>): seq<DataflowSummary> {
    SortByName(Complete(elems))
  }

  /** The catalog holds exactly the complete elements' summaries, ascending by
      name, entries of equal name in document order. */
  lemma CatalogSpec(elems: seq<DataflowElement>)
    ensures SortedByName(CatalogOf(elems))
    ensures forall d :: d in CatalogOf(elems) <==> exists i :: 0 <= i < |elems| && FromElement(d, elems[i])
    ensures forall name :: WithName(CatalogOf(elems), name) == WithName(Complete(elems), name)
  {
    SortByNameSorted(Complete(elems));
    forall d ensures d in CatalogOf(elems) <==> exists i :: 0 <= i < |elems| && FromElement(d, elems[i]) {
      assert d in CatalogOf(elems) <==> d in multiset(CatalogOf(elems));
      assert d in Complete(elems) <==> d in multiset(Complete(elems));
      CompleteMembers(elems, d);
    }
    forall name ensures WithName(CatalogOf(elems), name) == WithName(Complete(elems), name) {
      SortByNameStable(Complete(elems), name);
    }
  }

  /** Catalog entries that arrive as GFS then BOP are listed BOP first. */
  lemma CatalogExample()
    ensures CatalogOf([DataflowElement(Some("Government Finance"), Some("GFS")),
                     DataflowElement(Some("Balance of Payments"), Some("BOP"))])
         == [DataflowSummary("Balance of Payments", "BOP"), DataflowSummary("Government Finance", "GFS")]
  {
    var gfs := DataflowSummary("Government Finance", "GFS");
    var bop := DataflowSummary("Balance of Payments", "BOP");
    var elems := [DataflowElement(Some("Government Finance"), Some("GFS")),
                  DataflowElement(Some("Balance of Payments"), Some("BOP"))];
    assert elems[..1] == [elems[0]];
    assert Complete(elems) == [gfs, bop];
    assert !LexLessEq(gfs.name, bop.name);
  }
}
