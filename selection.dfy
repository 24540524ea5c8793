/** The selection toggle of `on_datastructure_select` (main.py:196-213): a
    double-clicked code is removed from its key's list when present and appended
    otherwise; the fetch button exists exactly while an indicator is chosen. */
module Selection {
  import opened Types
  import opened Schema

  predicate NoDup<T(==)>(s: seq<T>) {
    forall i, j :: 0 <= i < j < |s| ==> s[i] != s[j]
  }

  /** Position of the first occurrence of `x`. */
  function IndexOf<T(==)>(s: seq<T>, x: T): (i: nat)
    requires x in s
    ensures i < |s| && s[i] == x && x !in s[..i]
    decreases |s|
  {
    if s[0] == x then 0
    else
      var i := 1 + IndexOf(s[1..], x);
      assert s[..i] == [s[0]] + s[1..][..i - 1];
      i
  }

  /** `list.remove(x)`: drop the first occurrence of `x`, keep the rest in order. */
  function RemoveFirst<T(==)>(s: seq<T>, x: T): (r: seq<T>)
    requires x in s
    ensures |r| == |s| - 1
    ensures multiset(r) == multiset(s) - multiset{x}
    ensures exists i :: 0 <= i < |s| && s[i] == x && x !in s[..i] && r == s[..i] + s[i + 1..]
  {
    var i := IndexOf(s, x);
    assert s == s[..i] + [x] + s[i + 1..];
    s[..i] + s[i + 1..]
  }

  /** The effect of one double click on a code: present codes leave, absent ones
      join at the end. */
  function Toggled(chosen: seq<CodeEntry>, x: CodeEntry): (r: seq<CodeEntry>)
    ensures multiset(r) == if x in chosen then multiset(chosen) - multiset{x}
                           else multiset(chosen) + multiset{x}
    ensures forall y :: y != x ==> (y in r <==> y in chosen)
    ensures x in chosen ==> exists i :: 0 <= i < |chosen| && chosen[i] == x && x !in chosen[..i] &&
                                        r == chosen[..i] + chosen[i + 1..]
  {
    if x in chosen then
      var i := IndexOf(chosen, x);
      assert RemoveFirst(chosen, x) == chosen[..i] + chosen[i + 1..];
      RemoveFirst(chosen, x)
    else chosen + [x]
  }

  /** On a duplicate-free list the toggle flips membership of the toggled code:
      a present code is removed, an absent one appended at the end. */
  lemma ToggleFlips(chosen: seq<CodeEntry>, x: CodeEntry)
    requires NoDup(chosen)
    ensures x in Toggled(chosen, x) <==> x !in chosen
    ensures x !in chosen ==> Toggled(chosen, x) == chosen + [x]
    ensures x in chosen ==> |Toggled(chosen, x)| == |chosen| - 1
    ensures x in chosen ==> exists i :: 0 <= i < |chosen| && chosen[i] == x &&
                                        Toggled(chosen, x) == chosen[..i] + chosen[i + 1..]
  {
    if x in chosen {
      var i := IndexOf(chosen, x);
      assert Toggled(chosen, x) == chosen[..i] + chosen[i + 1..];
    }
  }

  lemma RemoveAtKeepsNoDup<T>(s: seq<T>, i: nat)
    requires i < |s| && NoDup(s)
    ensures NoDup(s[..i] + s[i + 1..])
  {
    var r := s[..i] + s[i + 1..];
    forall a, b | 0 <= a < b < |r| ensures r[a] != r[b] {
      assert r[a] == s[if a < i then a else a + 1];
      assert r[b] == s[if b < i then b else b + 1];
    }
  }

  /** A toggle keeps a list free of duplicates. */
  lemma ToggleKeepsNoDup(chosen: seq<CodeEntry>, x: CodeEntry)
    requires NoDup(chosen)
    ensures NoDup(Toggled(chosen, x))
  {
    if x in chosen {
      RemoveAtKeepsNoDup(chosen, IndexOf(chosen, x));
    }
  }

  /** Double-clicking an unselected code twice restores the list exactly. */
  lemma ToggleTwiceRestores(chosen: seq<CodeEntry>, x: CodeEntry)
    requires x !in chosen
    ensures Toggled(Toggled(chosen, x), x) == chosen
  {
    assert IndexOf(chosen + [x], x) == |chosen|;
    assert (chosen + [x])[..|chosen|] == chosen;
  }

  /** A run of double clicks on codes of one key. */
  function ToggleAll(chosen: seq<CodeEntry>, clicks: seq<CodeEntry>): seq<CodeEntry>
    decreases |clicks|
  {
    if clicks == [] then chosen else ToggleAll(Toggled(chosen, clicks[0]), clicks[1..])
  }

  /** From an empty selection, no run of clicks produces a duplicate. */
  lemma {:induction false} ToggleAllNoDup(chosen: seq<CodeEntry>, clicks: seq<CodeEntry>)
    requires NoDup(chosen)
    ensures NoDup(ToggleAll(chosen, clicks))
    decreases |clicks|
  {
    if clicks != [] {
      ToggleKeepsNoDup(chosen, clicks[0]);
      ToggleAllNoDup(Toggled(chosen, clicks[0]), clicks[1..]);
    }
  }

  lemma ClicksFromEmptyNoDup(clicks: seq<CodeEntry>)
    ensures NoDup(ToggleAll([], clicks))
  {
    ToggleAllNoDup([], clicks);
  }

  /** The selection of every key after one click on `key`: only that key changes. */
  function ToggleKey(attributes: map<string, seq<CodeEntry>>, key: string, x: CodeEntry)
    : (r: map<string, seq<CodeEntry>>)
    requires key in attributes
    ensures r.Keys == attributes.Keys
    ensures forall k :: k in attributes && k != key ==> r[k] == attributes[k]
    ensures x in r[key] <==> (x !in attributes[key] || multiset(attributes[key])[x] > 1)
    ensures r[key] == Toggled(attributes[key], x)
  {
    attributes[key := Toggled(attributes[key], x)]
  }

  /** The gate of main.py:208-213: the fetch button should exist. */
  predicate IndicatorChosen(attributes: map<string, seq<CodeEntry>>, keyFamilyId: string)
    requires IndicatorKey(keyFamilyId) in attributes
  {
    attributes[IndicatorKey(keyFamilyId)] != []
  }

  /** The button's next state from its current state: created when an indicator
      is chosen and it is missing, destroyed when none is chosen and it exists. */
  function GateButton(attributes: map<string, seq<CodeEntry>>, keyFamilyId: string, button: bool): (r: bool)
    requires IndicatorKey(keyFamilyId) in attributes
    ensures r <==> IndicatorChosen(attributes, keyFamilyId)
  {
    if IndicatorChosen(attributes, keyFamilyId) && !button then true
    else if !IndicatorChosen(attributes, keyFamilyId) && button then false
    else button
  }
}
