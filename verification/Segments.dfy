/** What the segments of the k-FIFO queue and of the k-stack have in common: slots with a version, and the
    search for a free or a used one. */
module Segments {
  import opened Basics

  const NULL: int := 0

  /** The null pointer. */
  const NIL: int := -1

  /** A pointer to a segment, with its version. */
  datatype Ptr = Ptr(seg: int, aba: nat)

  datatype Slot = Slot(value: int, aba: nat)

  const EMPTY := Slot(NULL, 0)

  /** How many slots hold an item. */
  function Filled(items: seq<Slot>): (n: nat)
    ensures n <= |items|
  {
    if items == [] then 0 else Filled(items[1..]) + if items[0].value != NULL then 1 else 0
  }

  lemma {:induction false} FilledAfter(items: seq<Slot>, i: nat, slot: Slot)
    requires i < |items|
    ensures Filled(items[i := slot]) == Filled(items) - (if items[i].value != NULL then 1 else 0) + (if slot.value != NULL then 1 else 0)
    ensures items[i].value == NULL ==> Filled(items) < |items|
  {
    if i > 0 {
      FilledAfter(items[1..], i - 1, slot);
      assert items[i := slot][1..] == items[1..][i - 1 := slot];
    } else {
      assert items[i := slot][1..] == items[1..];
    }
  }

  predicate NoItems(items: seq<Slot>) {
    forall i {:trigger items[i]} :: 0 <= i < |items| ==> items[i].value == NULL
  }

  lemma {:induction false} NoneFilled(items: seq<Slot>)
    requires NoItems(items)
    ensures Filled(items) == 0
  {
    if items != [] {
      NoneFilled(items[1..]);
    }
  }

  /** find_index looks for a slot that is empty or not, from a random place on; it finds one exactly if
      there is one. */
  method FindIndex(items: seq<Slot>, empty: bool) returns (index: Option<nat>, slot: Slot)
    requires |items| > 0
    ensures match index
            case Some(i) => i < |items| && slot == items[i] && (slot.value == NULL) == empty
            case None => forall i {:trigger items[i]} :: 0 <= i < |items| ==> (items[i].value == NULL) != empty
  {
    hide Visit;
    var k := |items|;
    var random: nat := *;
    slot := EMPTY;
    for i := 0 to k
      invariant forall j: nat {:trigger Visit(random, j, k)} :: j < i ==> (items[Visit(random, j, k)].value == NULL) != empty
    {
      var at := Visit(random, i, k);
      slot := items[at];
      if (slot.value == NULL) == empty {
        return Some(at), slot;
      }
    }
    forall i | 0 <= i < k ensures (items[i].value == NULL) != empty {
      var j := VisitsAll(random, k, i);
    }
    return None, slot;
  }
}
