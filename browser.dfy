/** The dataset browser of main.py: the cursor moves of `show_next_dataset` and
    `show_previous_dataset` (main.py:316-326) and the lookup of `update_treeview`
    (main.py:306-307). The cursor is never reset when a fetch replaces the data,
    so it can point past the end of a shorter list. */
module Browser {
  import opened Types

  /** The index after "Next" over `count` tables. */
  function NextIndex(index: nat, count: nat): (r: nat)
    ensures r == index || r == index + 1
    ensures r == index + 1 <==> index + 1 < count
    ensures index < count ==> r < count
  {
    if count > 0 && index < count - 1 then index + 1 else index
  }

  /** The index after "Previous" over `count` tables; it steps back even from a
      stale index past the end. */
  function PreviousIndex(index: nat, count: nat): (r: nat)
    ensures r == index || r + 1 == index
    ensures r + 1 == index <==> count > 0 && index > 0
    ensures index < count ==> r < count
  {
    if count > 0 && index > 0 then index - 1 else index
  }

  function NextTimes(index: nat, count: nat, presses: nat): nat
    decreases presses
  {
    if presses == 0 then index else NextTimes(NextIndex(index, count), count, presses - 1)
  }

  function PreviousTimes(index: nat, count: nat, presses: nat): nat
    decreases presses
  {
    if presses == 0 then index else PreviousTimes(PreviousIndex(index, count), count, presses - 1)
  }

  /** From a valid position, pressing "Next" walks forward and stops at the last table. */
  lemma {:induction false} NextTimesStopsAtLast(index: nat, count: nat, presses: nat)
    requires index < count
    ensures NextTimes(index, count, presses) == if index + presses < count then index + presses else count - 1
    decreases presses
  {
    if presses > 0 {
      NextTimesStopsAtLast(NextIndex(index, count), count, presses - 1);
    }
  }

  /** Over non-empty data, pressing "Previous" walks back to the first table and
      stops there, from any index, a stale one included. */
  lemma {:induction false} PreviousTimesStopsAtFirst(index: nat, count: nat, presses: nat)
    requires count > 0
    ensures PreviousTimes(index, count, presses) == if presses <= index then index - presses else 0
    decreases presses
  {
    if presses > 0 {
      PreviousTimesStopsAtFirst(PreviousIndex(index, count), count, presses - 1);
    }
  }

  /** Over no data neither button moves the cursor. */
  lemma {:induction false} EmptyDataNeverMoves(index: nat, presses: nat)
    ensures NextTimes(index, 0, presses) == index
    ensures PreviousTimes(index, 0, presses) == index
    decreases presses
  {
    if presses > 0 {
      EmptyDataNeverMoves(index, presses - 1);
    }
  }

  /** A stale cursor past the end of the data is not moved by "Next". */
  lemma {:induction false} StaleCursorStaysWithNext(index: nat, count: nat, presses: nat)
    requires index >= count
    ensures NextTimes(index, count, presses) == index
    decreases presses
  {
    if presses > 0 {
      StaleCursorStaysWithNext(index, count, presses - 1);
    }
  }

  /** What `update_treeview` shows. */
  datatype Shown = NothingShown | ShownTable(table: Frame) | ShowFailed(error: FrameError)

  /** `df = self.display_data[self.current_index]` under `if self.display_data`:
      an index past the end raises IndexError. */
  function ShownAt(data: seq<Frame>, index: nat): (r: Shown)
    ensures r.NothingShown? <==> data == []
    ensures r.ShownTable? <==> index < |data|
    ensures r.ShownTable? ==> r.table == data[index]
  {
    if data == [] then NothingShown
    else if index < |data| then ShownTable(data[index])
    else ShowFailed(IndexError)
  }
}
