/**
 * The to-do list of the todo tool: an ordered list of items that the tool
 * grows, marks and shrinks in place, and renders as text. Items are numbered
 * from 1 in every user-facing operation. The clock is not modelled: the
 * instant `time.Now()` would give is passed in as `now`.
 */
module Todo {
  import opened Wrappers
  import opened Text

  /** An instant as `time.Now()` returns it, kept opaque. */
  type Time = int

  /** Stands for `time.Time{}`, the zero instant an open item carries as its completion time. */
  const ZeroTime: Time := 0

  /** `item`: the task text, whether it is done, and when it was created and completed. */
  datatype Item = Item(task: string, done: bool, createdAt: Time, completedAt: Time)

  // ---------------------------------------------------------------------
  // What each operation does to the sequence of items.

  /** The items after `Add(task)`: one open item more, at the end. */
  function Appended(items: seq<Item>, task: string, now: Time): (r: seq<Item>)
    ensures |r| == |items| + 1 && r[..|items|] == items
    ensures r[|items|].task == task && !r[|items|].done
    ensures r[|items|].createdAt == now && r[|items|].completedAt == ZeroTime
  {
    items + [Item(task, false, now, ZeroTime)]
  }

  /** Whether `i` numbers an item of the list (numbering from 1). */
  predicate Exists(items: seq<Item>, i: int) {
    1 <= i <= |items|
  }

  /** The error text of `Complete` and `Delete` for a number that names no item. */
  function NotFound(i: int): string {
    "Item " + Decimal(i) + " does not exist"
  }

  /** The items after `Complete(i)`: item `i` is done, completed `now`; nothing else changes. */
  function Completed(items: seq<Item>, i: int, now: Time): (r: seq<Item>)
    requires Exists(items, i)
    ensures |r| == |items|
    ensures r[i - 1].done && r[i - 1].completedAt == now
    ensures r[i - 1].task == items[i - 1].task && r[i - 1].createdAt == items[i - 1].createdAt
    ensures forall j :: 0 <= j < |r| && j != i - 1 ==> r[j] == items[j]
  {
    items[i - 1 := items[i - 1].(done := true, completedAt := now)]
  }

  /** The items after `Delete(i)`: item `i` is gone and the others keep their order. */
  function Deleted(items: seq<Item>, i: int): (r: seq<Item>)
    requires Exists(items, i)
    ensures |r| == |items| - 1
    ensures forall j :: 0 <= j < i - 1 ==> r[j] == items[j]
    ensures forall j :: i - 1 <= j < |r| ==> r[j] == items[j + 1]
  {
    items[..i - 1] + items[i..]
  }

  // ---------------------------------------------------------------------
  // What `String` and `PrintIncomplete` write.

  /** The line `String` writes for item number `k`, without its newline. */
  function ItemLine(k: int, it: Item): string {
    (if it.done then "X " else " ") + Decimal(k) + ": " + it.task
  }

  /** The text `String` returns: one line per item, numbered from 1, in list order. */
  function Formatted(items: seq<Item>): (r: string)
    ensures Terminated(r)
    ensures r == [] <==> items == []
  {
    if items == [] then ""
    else Formatted(items[..|items| - 1]) + ItemLine(|items|, items[|items| - 1]) + "\n"
  }

  /** The line `PrintIncomplete` writes for open item number `k`, without its newline. */
  function PendingLine(k: int, it: Item): string {
    Decimal(k) + ": " + it.task
  }

  /** The text `PrintIncomplete` writes: a line for each open item, under its place in the whole list. */
  function Pending(items: seq<Item>): (r: string)
    ensures Terminated(r)
  {
    if items == [] then ""
    else
      var last := items[|items| - 1];
      if last.done then Pending(items[..|items| - 1])
      else Pending(items[..|items| - 1]) + PendingLine(|items|, last) + "\n"
  }

  /** The number of items not yet done. */
  function OpenCount(items: seq<Item>): (n: nat)
    ensures n <= |items|
  {
    if items == [] then 0
    else OpenCount(items[..|items| - 1]) + (if items[|items| - 1].done then 0 else 1)
  }

  /** The 0-based places of the open items, in list order. */
  function OpenPlaces(items: seq<Item>): (p: seq<nat>)
    ensures |p| == OpenCount(items)
    ensures forall j :: 0 <= j < |p| ==> p[j] < |items|
  {
    if items == [] then []
    else
      var n := |items| - 1;
      if items[n].done then OpenPlaces(items[..n]) else OpenPlaces(items[..n]) + [n]
  }

  /** `OpenPlaces` lists exactly the open items, each once, in increasing order. */
  lemma {:induction false} OpenPlacesExact(items: seq<Item>)
    ensures forall j :: 0 <= j < |OpenPlaces(items)| ==> !items[OpenPlaces(items)[j]].done
    ensures forall j, j' :: 0 <= j < j' < |OpenPlaces(items)| ==> OpenPlaces(items)[j] < OpenPlaces(items)[j']
    ensures forall k :: 0 <= k < |items| && !items[k].done ==> k in OpenPlaces(items)
    decreases |items|
  {
    if items != [] {
      var n := |items| - 1;
      var init := items[..n];
      OpenPlacesExact(init);
      var p, q := OpenPlaces(items), OpenPlaces(init);
      assert forall j :: 0 <= j < |q| ==> items[q[j]] == init[q[j]];
      assert forall k :: 0 <= k < n ==> items[k] == init[k];
      if !items[n].done {
        assert p == q + [n];
      }
    }
  }

  /** No task text contains a newline, so every item takes exactly one line. */
  predicate SingleLineTasks(items: seq<Item>) {
    forall k :: 0 <= k < |items| ==> '\n' !in items[k].task
  }

  // ---------------------------------------------------------------------
  // Properties of the operations.

  /** Deleting the item just added gives back the list as it was. */
  lemma DeleteUndoesAdd(items: seq<Item>, task: string, now: Time)
    ensures Exists(Appended(items, task, now), |items| + 1)
    ensures Deleted(Appended(items, task, now), |items| + 1) == items
  {
    assert Appended(items, task, now)[..|items|] == items;
  }

  /** Completing an item closes one open item, or none if it was already done. */
  lemma {:induction false} CompleteClosesOne(items: seq<Item>, i: int, now: Time)
    requires Exists(items, i)
    ensures OpenCount(Completed(items, i, now)) == OpenCount(items) - (if items[i - 1].done then 0 else 1)
    decreases |items|
  {
    var r := Completed(items, i, now);
    var n := |items| - 1;
    if i - 1 == n {
      assert r[..n] == items[..n];
    } else {
      assert r[..n] == Completed(items[..n], i, now);
      CompleteClosesOne(items[..n], i, now);
    }
  }

  /** `String` writes exactly one line per item, in list order, each as `ItemLine` numbers it. */
  lemma FormattedLines(items: seq<Item>)
    requires SingleLineTasks(items)
    ensures |LinesOf(Formatted(items))| == |items|
    ensures forall k :: 0 <= k < |items| ==> LinesOf(Formatted(items))[k] == ItemLine(k + 1, items[k])
  {
    FormattedMatch(items);
  }

  /** `lines` are the item lines of `items`, one each, in order. */
  predicate ItemLinesMatch(lines: seq<string>, items: seq<Item>) {
    && |lines| == |items|
    && forall k :: 0 <= k < |items| ==> lines[k] == ItemLine(k + 1, items[k])
  }

  lemma {:induction false} FormattedMatch(items: seq<Item>)
    requires SingleLineTasks(items)
    ensures ItemLinesMatch(LinesOf(Formatted(items)), items)
    decreases |items|
  {
    if items != [] {
      var n := |items| - 1;
      var init := items[..n];
      assert SingleLineTasks(init) by {
        forall k | 0 <= k < n ensures '\n' !in init[k].task {
          assert init[k] == items[k];
        }
      }
      FormattedMatch(init);
      FormattedOneMoreLine(items);
      ItemLinesSnoc(LinesOf(Formatted(init)), items);
    }
  }

  /** The last item adds its own line after the lines of the others. */
  lemma FormattedOneMoreLine(items: seq<Item>)
    requires items != [] && '\n' !in items[|items| - 1].task
    ensures var n := |items| - 1;
            LinesOf(Formatted(items)) == LinesOf(Formatted(items[..n])) + [ItemLine(n + 1, items[n])]
  {
    var n := |items| - 1;
    SingleLine(items[n].done, Decimal(n + 1), items[n].task);
    LinesOfAppend(Formatted(items[..n]), ItemLine(n + 1, items[n]));
  }

  /** The line of the last item extends the lines of the others. */
  lemma ItemLinesSnoc(lines: seq<string>, items: seq<Item>)
    requires items != [] && ItemLinesMatch(lines, items[..|items| - 1])
    ensures var n := |items| - 1;
            ItemLinesMatch(lines + [ItemLine(n + 1, items[n])], items)
  {
    var n := |items| - 1;
    forall k | 0 <= k < n ensures items[k] == items[..n][k] {
    }
  }

  /** A numbered line is one line when its task is. */
  lemma SingleLine(done: bool, number: string, task: string)
    requires '\n' !in number && '\n' !in task
    ensures '\n' !in (if done then "X " else " ") + number + ": " + task
    ensures '\n' !in number + ": " + task
  {
  }

  /**
   * `PrintIncomplete` writes exactly one line per open item, in list order,
   * each numbered by the item's place in the whole list.
   */
  lemma PendingLines(items: seq<Item>)
    requires SingleLineTasks(items)
    ensures |LinesOf(Pending(items))| == |OpenPlaces(items)|
    ensures forall j :: 0 <= j < |OpenPlaces(items)| ==>
              LinesOf(Pending(items))[j] == PendingLine(OpenPlaces(items)[j] + 1, items[OpenPlaces(items)[j]])
  {
    PendingLinesMatch(items);
    var lines, places := LinesOf(Pending(items)), OpenPlaces(items);
    assert |lines| == |places|;
    forall j | 0 <= j < |places| ensures lines[j] == PendingLine(places[j] + 1, items[places[j]]) {
    }
  }

  /** `lines` are the pending lines of the items at `places`, one each, in order. */
  predicate LinesMatch(lines: seq<string>, places: seq<nat>, items: seq<Item>) {
    && |lines| == |places|
    && forall j :: 0 <= j < |places| ==> places[j] < |items| && lines[j] == PendingLine(places[j] + 1, items[places[j]])
  }

  lemma {:induction false} PendingLinesMatch(items: seq<Item>)
    requires SingleLineTasks(items)
    ensures LinesMatch(LinesOf(Pending(items)), OpenPlaces(items), items)
    decreases |items|
  {
    if items != [] {
      var n := |items| - 1;
      var init := items[..n];
      assert SingleLineTasks(init) by {
        forall k | 0 <= k < n ensures '\n' !in init[k].task {
          assert init[k] == items[k];
        }
      }
      PendingLinesMatch(init);
      if items[n].done {
        assert Pending(items) == Pending(init) && OpenPlaces(items) == OpenPlaces(init);
        LinesMatchPrefix(LinesOf(Pending(init)), OpenPlaces(init), items);
      } else {
        PendingOneMoreLine(items);
        assert OpenPlaces(items) == OpenPlaces(init) + [n];
        LinesMatchPrefix(LinesOf(Pending(init)), OpenPlaces(init), items);
        LinesMatchSnoc(LinesOf(Pending(init)), OpenPlaces(init), items);
      }
    }
  }

  /** Lines that match the items of a prefix match the same items in the whole list. */
  lemma LinesMatchPrefix(lines: seq<string>, places: seq<nat>, items: seq<Item>)
    requires items != [] && LinesMatch(lines, places, items[..|items| - 1])
    ensures LinesMatch(lines, places, items)
  {
    var init := items[..|items| - 1];
    forall j | 0 <= j < |places| ensures items[places[j]] == init[places[j]] {
    }
  }

  /** The line of the last item extends the match by its place. */
  lemma LinesMatchSnoc(lines: seq<string>, places: seq<nat>, items: seq<Item>)
    requires items != [] && LinesMatch(lines, places, items)
    ensures var n := |items| - 1;
            LinesMatch(lines + [PendingLine(n + 1, items[n])], places + [n], items)
  {
  }

  /** An open last item adds its own line after the lines of the others. */
  lemma PendingOneMoreLine(items: seq<Item>)
    requires items != [] && !items[|items| - 1].done && '\n' !in items[|items| - 1].task
    ensures var n := |items| - 1;
            LinesOf(Pending(items)) == LinesOf(Pending(items[..n])) + [PendingLine(n + 1, items[n])]
  {
    var n := |items| - 1;
    var line := PendingLine(n + 1, items[n]);
    SingleLine(false, Decimal(n + 1), items[n].task);
    LinesOfAppend(Pending(items[..n]), line);
  }

  /** `PrintIncomplete` writes nothing exactly when every item is done. */
  lemma {:induction false} PendingEmptyIffAllDone(items: seq<Item>)
    ensures Pending(items) == [] <==> forall k :: 0 <= k < |items| ==> items[k].done
    decreases |items|
  {
    if items != [] {
      var n := |items| - 1;
      PendingEmptyIffAllDone(items[..n]);
      assert forall k :: 0 <= k < n ==> items[..n][k] == items[k];
    }
  }

  // ---------------------------------------------------------------------
  // The list itself.

  /** `List`: the items, in the order they were added. */
  class List {
    var items: seq<Item>

    /** An empty list, as `&todo.List{}`. */
    constructor ()
      ensures items == []
    {
      items := [];
    }

    /** `Add`: append an open item for `task`, created `now`. */
    method Add(task: string, now: Time)
      modifies this
      ensures items == Appended(old(items), task, now)
    {
      items := items + [Item(task, false, now, ZeroTime)];
    }

    /** `Complete`: mark item `i` done, or report that there is no item `i` and change nothing. */
    method Complete(i: int, now: Time) returns (err: Option<string>)
      modifies this
      ensures !Exists(old(items), i) ==> err == Some(NotFound(i)) && items == old(items)
      ensures Exists(old(items), i) ==> err == None && items == Completed(old(items), i, now)
    {
      if i <= 0 || i > |items| {
        return Some(NotFound(i));
      }
      items := items[i - 1 := items[i - 1].(done := true)];
      items := items[i - 1 := items[i - 1].(completedAt := now)];
      return None;
    }

    /** `Delete`: remove item `i`, or report that there is no item `i` and change nothing. */
    method Delete(i: int) returns (err: Option<string>)
      modifies this
      ensures !Exists(old(items), i) ==> err == Some(NotFound(i)) && items == old(items)
      ensures Exists(old(items), i) ==> err == None && items == Deleted(old(items), i)
    {
      if i <= 0 || i > |items| {
        return Some(NotFound(i));
      }
      items := items[..i - 1] + items[i..];
      return None;
    }

    /** `String`: the whole list, one numbered line per item, done items marked `X`. */
    method String() returns (formatted: string)
      ensures formatted == Formatted(items)
    {
      formatted := "";
      var k := 0;
      while k < |items|
        invariant 0 <= k <= |items|
        invariant formatted == Formatted(items[..k])
      {
        var prefix := " ";
        if items[k].done {
          prefix := "X ";
        }
        assert items[..k + 1][..k] == items[..k];
        formatted := formatted + (prefix + Decimal(k + 1) + ": " + items[k].task + "\n");
        k := k + 1;
      }
      assert items[..k] == items;
    }

    /** `PrintIncomplete`: what it prints, a numbered line for each open item. */
    method PrintIncomplete() returns (out: string)
      ensures out == Pending(items)
    {
      out := "";
      var i := 0;
      while i < |items|
        invariant 0 <= i <= |items|
        invariant out == Pending(items[..i])
      {
        assert items[..i + 1][..i] == items[..i];
        if !items[i].done {
          out := out + (Decimal(i + 1) + ": " + items[i].task + "\n");
        }
        i := i + 1;
      }
      assert items[..i] == items;
    }
  }
}
