/**
 * The variable bindings of the Home view and how a recognition response is
 * folded into them. The response is walked in order; each item whose `assign`
 * flag is set calls `setVariables({...snapshot, [expr]: result})`, where
 * `snapshot` is the bindings object the handler closed over when it was
 * started. Every call hands React a whole new object, and React keeps the
 * last one it was handed, so only the last assigning item survives (on top of
 * the snapshot); with no assigning item the bindings are left as they are.
 */
module VariableBindings {

  /** One entry of the service's `data` array. */
  datatype Item = Item(expr: string, result: string, assign: bool)

  type Bindings = map<string, string>

  /**
   * The bindings once the updates queued by `items` are applied to `current`:
   * each assigning item replaces the pending value by the snapshot with its own
   * binding written; any other item leaves it alone. The outcome is either
   * `current` or the snapshot with one assigning item's binding written.
   */
  function Merge(current: Bindings, snapshot: Bindings, items: seq<Item>): (r: Bindings)
    ensures r == current ||
      exists k :: 0 <= k < |items| && items[k].assign && r == snapshot[items[k].expr := items[k].result]
    decreases |items|
  {
    if items == [] then current
    else
      var next := if items[0].assign then snapshot[items[0].expr := items[0].result] else current;
      var r := Merge(next, snapshot, items[1..]);
      assert forall k :: 0 <= k < |items| - 1 ==> items[1..][k] == items[k + 1];
      r
  }

  /** No assigning item: `setVariables` is never called and the bindings are unchanged. */
  lemma {:induction false} MergeWithoutAssign(current: Bindings, snapshot: Bindings, items: seq<Item>)
    requires forall j :: 0 <= j < |items| ==> !items[j].assign
    ensures Merge(current, snapshot, items) == current
    decreases |items|
  {
    if items != [] {
      MergeWithoutAssign(current, snapshot, items[1..]);
    }
  }

  /**
   * The last assigning item, at index k, decides the outcome: the snapshot
   * with only that item's binding written. Earlier assignments are lost.
   */
  lemma {:induction false} MergeLastAssignWins(current: Bindings, snapshot: Bindings, items: seq<Item>, k: nat)
    requires k < |items| && items[k].assign
    requires forall j :: k < j < |items| ==> !items[j].assign
    ensures Merge(current, snapshot, items) == snapshot[items[k].expr := items[k].result]
    decreases |items|
  {
    if k == 0 {
      MergeWithoutAssign(snapshot[items[0].expr := items[0].result], snapshot, items[1..]);
    } else {
      var next := if items[0].assign then snapshot[items[0].expr := items[0].result] else current;
      MergeLastAssignWins(next, snapshot, items[1..], k - 1);
    }
  }

  /** The assigning items of a response, in order. */
  function Assigning(items: seq<Item>): (r: seq<Item>)
    ensures |r| <= |items|
    ensures forall j :: 0 <= j < |r| ==> r[j].assign && r[j] in items
  {
    if items == [] then []
    else if items[0].assign then [items[0]] + Assigning(items[1..])
    else Assigning(items[1..])
  }

  /** Items whose `assign` flag is false never matter, wherever they stand. */
  lemma {:induction false} MergeIgnoresNonAssigning(current: Bindings, snapshot: Bindings, items: seq<Item>)
    ensures Merge(current, snapshot, items) == Merge(current, snapshot, Assigning(items))
    decreases |items|
  {
    if items != [] {
      var next := if items[0].assign then snapshot[items[0].expr := items[0].result] else current;
      MergeIgnoresNonAssigning(next, snapshot, items[1..]);
      if items[0].assign {
        assert ([items[0]] + Assigning(items[1..]))[1..] == Assigning(items[1..]);
      }
    }
  }

  /**
   * The bindings never lose a key of the snapshot they were folded from, as
   * long as the current bindings extend the snapshot too.
   */
  lemma {:induction false} MergeKeepsSnapshotKeys(current: Bindings, snapshot: Bindings, items: seq<Item>)
    requires snapshot.Keys <= current.Keys
    ensures snapshot.Keys <= Merge(current, snapshot, items).Keys
    decreases |items|
  {
    if items != [] {
      var next := if items[0].assign then snapshot[items[0].expr := items[0].result] else current;
      MergeKeepsSnapshotKeys(next, snapshot, items[1..]);
    }
  }

  /** The response `[x = 2 (assign), x+1 = 3]` folded into empty bindings gives `{x: "2"}`. */
  lemma MergeExample()
    ensures Merge(map[], map[], [Item("x", "2", true), Item("x+1", "3", false)]) == map["x" := "2"]
  {
  }
}
