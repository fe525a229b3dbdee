/** Greedy packing of a sequence into batches, for any notion of a batch that fits and one that is full. */
module Packing {
  import opened Ordering

  /** Non-empty batches that fit, none but the last with room for the next one's first item. */
  ghost predicate WellPacked<T(!new)>(fits: seq<T> -> bool, full: (seq<T>, T) -> bool, batches: seq<seq<T>>) {
    && (forall i :: 0 <= i < |batches| ==> batches[i] != [] && fits(batches[i]))
    && forall i, j :: 0 <= i && j == i + 1 < |batches| ==> full(batches[i], batches[j][0])
  }

  ghost predicate PackedAs<T(!new)>(
    fits: seq<T> -> bool, full: (seq<T>, T) -> bool, items: seq<T>, batches: seq<seq<T>>)
  {
    WellPacked(fits, full, batches) && Flatten(batches) == items
  }

  lemma {:induction false} FlattenAppend<T>(a: seq<seq<T>>, b: seq<T>)
    ensures Flatten(a + [b]) == Flatten(a) + b
  {
    if a == [] {
      assert a + [b] == [b];
      assert b + [] == b;
    } else {
      assert (a + [b])[1..] == a[1..] + [b];
      FlattenAppend(a[1..], b);
      assert a[0] + (Flatten(a[1..]) + b) == a[0] + Flatten(a[1..]) + b;
    }
  }

  /** The batches closed so far, with the open one unless it is empty. */
  function Closing<T>(closed: seq<seq<T>>, open: seq<T>): seq<seq<T>> {
    if open == [] then closed else closed + [open]
  }

  /** The open batch takes one more item. */
  lemma Grows<T(!new)>(
    fits: seq<T> -> bool, full: (seq<T>, T) -> bool, items: seq<T>, closed: seq<seq<T>>, open: seq<T>, x: T)
    requires PackedAs(fits, full, items, Closing(closed, open)) && (closed != [] ==> open != [])
    requires fits(open + [x])
    ensures PackedAs(fits, full, items + [x], Closing(closed, open + [x]))
  {
    var before, after := Closing(closed, open), closed + [open + [x]];
    FlattenAppend(closed, open + [x]);
    if open != [] {
      FlattenAppend(closed, open);
      assert forall i :: 0 <= i < |closed| ==> after[i] == before[i];
      assert after[|closed|][0] == before[|closed|][0];
      assert Flatten(closed) + (open + [x]) == Flatten(closed) + open + [x];
    } else {
      assert closed == [] && open + [x] == [x];
    }
  }

  /** The open batch is closed and the item starts a new one. */
  lemma Turns<T(!new)>(
    fits: seq<T> -> bool, full: (seq<T>, T) -> bool, items: seq<T>, closed: seq<seq<T>>, open: seq<T>, x: T)
    requires PackedAs(fits, full, items, Closing(closed, open)) && open != []
    requires full(open, x) && fits([x])
    ensures PackedAs(fits, full, items + [x], Closing(closed + [open], [x]))
  {
    var before, after := closed + [open], closed + [open] + [[x]];
    FlattenAppend(before, [x]);
    assert forall i :: 0 <= i < |before| ==> after[i] == before[i];
  }

  /** The open batch is the end of what was packed. */
  lemma OpenIsSuffix<T(!new)>(
    fits: seq<T> -> bool, full: (seq<T>, T) -> bool, items: seq<T>, closed: seq<seq<T>>, open: seq<T>)
    requires PackedAs(fits, full, items, Closing(closed, open))
    ensures |open| <= |items| && items[|items| - |open|..] == open
  {
    if open != [] {
      FlattenAppend(closed, open);
    }
  }

  /** The open batch and the item after it are consecutive in the input. */
  lemma OpenAndNext<T(!new)>(
    fits: seq<T> -> bool, full: (seq<T>, T) -> bool, all: seq<T>, k: nat, closed: seq<seq<T>>, open: seq<T>)
    requires k < |all| && PackedAs(fits, full, all[..k], Closing(closed, open))
    ensures |open| <= k && open + [all[k]] == all[k - |open|..k + 1]
  {
    OpenIsSuffix(fits, full, all[..k], closed, open);
    assert all[..k][k - |open|..] == all[k - |open|..k];
    assert all[k - |open|..k + 1] == all[k - |open|..k] + [all[k]];
  }
}
