/** How far the k-FIFO queue may leave the order of arrival when operations run one at a time: whatever
    slots are chosen, a segment receives at most k items in its life, so that fewer than k younger items
    are dequeued before any item, and a dequeued item leaves fewer than k older ones behind. Items are
    distinct and not NULL. */
module KFifoOrder {
  import opened Basics
  import opened Segments
  import opened KFifoModel

  /** The queue with its history: the items in the order of arrival, the segment each one was put in, the
      items dequeued, and the position in `arrived` from which on items are in the segment at tail. */
  datatype View = View(k: nat, segs: seq<Segment>, head: Ptr, tail: Ptr,
                       arrived: seq<int>, segOf: seq<nat>, taken: set<int>, first: nat)

  // ------------------------------------------------------------------ the invariant

  ghost predicate SegOk(v: View, s: nat)
    requires s < |v.segs|
  {
    && |v.segs[s].items| == v.k
    && v.segs[s].next == (if s + 1 < |v.segs| then Ptr(s + 1, 1) else Ptr(NIL, 0))
    && (v.segs[s].deleted <==> s < v.head.seg)
  }

  /** Tail is the last segment. */
  ghost predicate Shape(v: View) {
    && v.k > 0 && 0 <= v.head.seg <= v.tail.seg == |v.segs| - 1
    && forall s: nat {:trigger v.segs[s]} :: s < |v.segs| ==> SegOk(v, s)
  }

  ghost predicate HasItem(segs: seq<Segment>, s: nat, x: int) {
    s < |segs| && exists i :: 0 <= i < |segs[s].items| && segs[s].items[i].value == x
  }

  /** The item that arrived as number `i` is in its segment until it is dequeued. */
  ghost predicate ArrivalOk(v: View, i: nat)
    requires i < |v.arrived| == |v.segOf|
  {
    && v.arrived[i] != NULL && v.segOf[i] <= v.tail.seg
    && (v.arrived[i] !in v.taken ==> HasItem(v.segs, v.segOf[i], v.arrived[i]) && v.segOf[i] >= v.head.seg)
  }

  /** What a slot holds arrived in its segment, has not been dequeued, and is in no other slot of it. */
  ghost predicate SlotOk(v: View, s: nat, i: nat)
    requires s < |v.segs| && i < |v.segs[s].items| && |v.arrived| == |v.segOf|
  {
    var x := v.segs[s].items[i].value;
    x != NULL ==>
      && x !in v.taken && (exists a :: 0 <= a < |v.arrived| && v.arrived[a] == x && v.segOf[a] == s)
      && forall j :: 0 <= j < |v.segs[s].items| && j != i ==> v.segs[s].items[j].value != x
  }

  ghost predicate Arrivals(v: View) {
    && |v.arrived| == |v.segOf|
    && (forall i, j {:trigger v.arrived[i], v.arrived[j]} :: 0 <= i < j < |v.arrived| ==> v.arrived[i] != v.arrived[j])
    && (forall i: nat {:trigger v.arrived[i]} :: i < |v.arrived| ==> ArrivalOk(v, i))
    && (forall x {:trigger x in v.taken} :: x in v.taken ==> x in v.arrived)
  }

  ghost predicate Slots(v: View) {
    |v.arrived| == |v.segOf| && forall s: nat, i: nat {:trigger v.segs[s].items[i]} ::
      s < |v.segs| && i < |v.segs[s].items| ==> SlotOk(v, s, i)
  }

  /** The segments were filled one after the other, each with at most k items; nothing has been dequeued
      from the segment at tail, so it has as many items as have arrived in it. */
  ghost predicate Order(v: View) {
    && |v.arrived| == |v.segOf|
    && (forall i, j {:trigger v.segOf[i], v.segOf[j]} :: 0 <= i <= j < |v.segOf| ==>
          v.segOf[i] <= v.segOf[j] && (v.segOf[i] == v.segOf[j] ==> j - i < v.k))
    && v.first <= |v.arrived|
    && (forall i {:trigger v.segOf[i]} :: 0 <= i < |v.segOf| ==> (v.segOf[i] == v.tail.seg <==> i >= v.first))
    && (forall i {:trigger v.arrived[i]} :: v.first <= i < |v.arrived| ==> v.arrived[i] !in v.taken)
    && 0 <= v.tail.seg < |v.segs| && Filled(v.segs[v.tail.seg].items) == |v.arrived| - v.first
  }

  /** Items have been dequeued only from the segments up to head. */
  ghost predicate OnlyHeadTouched(v: View) {
    |v.arrived| == |v.segOf| && forall i {:trigger v.arrived[i]} :: 0 <= i < |v.arrived| && v.arrived[i] in v.taken ==>
      v.segOf[i] <= v.head.seg
  }

  ghost predicate Inv(v: View) {
    Shape(v) && Arrivals(v) && Slots(v) && Order(v) && OnlyHeadTouched(v)
  }

  lemma AtArrival(v: View, i: nat)
    requires Arrivals(v) && i < |v.arrived|
    ensures ArrivalOk(v, i)
  {
  }

  lemma AtSlot(v: View, s: nat, i: nat)
    requires Slots(v) && s < |v.segs| && i < |v.segs[s].items|
    ensures SlotOk(v, s, i)
  {
  }

  lemma InitInv(k: nat)
    requires k > 0
    ensures Inv(View(k, [NewSegment(k)], Ptr(0, 0), Ptr(0, 0), [], [], {}, 0))
  {
    var v := View(k, [NewSegment(k)], Ptr(0, 0), Ptr(0, 0), [], [], {}, 0);
    NoneFilled(NewSegment(k).items);
    assert SegOk(v, 0);
    forall s: nat, i: nat | s < |v.segs| && i < |v.segs[s].items| ensures SlotOk(v, s, i) {}
  }

  // ------------------------------------------------------------------ enqueue

  function SetSlotIn(segs: seq<Segment>, s: nat, i: nat, slot: Slot): seq<Segment>
    requires s < |segs| && i < |segs[s].items|
  {
    segs[s := segs[s].(items := segs[s].items[i := slot])]
  }

  function Put(v: View, i: nat, slot: Slot): View
    requires 0 <= v.tail.seg < |v.segs| && i < |v.segs[v.tail.seg].items|
  {
    v.(segs := SetSlotIn(v.segs, v.tail.seg, i, slot), arrived := v.arrived + [slot.value], segOf := v.segOf + [v.tail.seg])
  }

  lemma PutArrivals(v: View, i: nat, slot: Slot)
    requires Inv(v) && i < v.k && v.segs[v.tail.seg].items[i].value == NULL
    requires slot.value != NULL && slot.value !in v.arrived
    ensures Arrivals(Put(v, i, slot))
  {
    hide Slots, Order;
    var v' := Put(v, i, slot);
    assert SegOk(v, v.tail.seg);
    forall a: nat | a < |v'.arrived| ensures ArrivalOk(v', a) {
      if a < |v.arrived| {
        AtArrival(v, a);
        if v.arrived[a] !in v.taken {
          var j :| 0 <= j < |v.segs[v.segOf[a]].items| && v.segs[v.segOf[a]].items[j].value == v.arrived[a];
          assert v'.segs[v.segOf[a]].items[j].value == v.arrived[a];
        }
      } else {
        assert v'.segs[v.tail.seg].items[i].value == slot.value;
      }
    }
  }

  lemma PutSlots(v: View, i: nat, slot: Slot)
    requires Inv(v) && i < v.k && v.segs[v.tail.seg].items[i].value == NULL
    requires slot.value != NULL && slot.value !in v.arrived
    ensures Slots(Put(v, i, slot))
  {
    hide Order;
    var v' := Put(v, i, slot);
    assert SegOk(v, v.tail.seg);
    forall s: nat, j: nat | s < |v'.segs| && j < |v'.segs[s].items| ensures SlotOk(v', s, j) {
      AtSlot(v, s, j);
      var x := v'.segs[s].items[j].value;
      if s == v.tail.seg && j == i {
        assert v'.arrived[|v.arrived|] == x && v'.segOf[|v.arrived|] == s;
        forall j1 | 0 <= j1 < |v'.segs[s].items| && j1 != j ensures v'.segs[s].items[j1].value != x {
          AtSlot(v, s, j1);
        }
      } else if x != NULL {
        var a :| 0 <= a < |v.arrived| && v.arrived[a] == x && v.segOf[a] == s;
        assert v'.arrived[a] == x && v'.segOf[a] == s;
      }
    }
  }

  lemma PutOrder(v: View, i: nat, slot: Slot)
    requires Inv(v) && i < v.k && v.segs[v.tail.seg].items[i].value == NULL
    requires slot.value != NULL && slot.value !in v.arrived
    ensures Order(Put(v, i, slot)) && Shape(Put(v, i, slot))
  {
    hide Slots;
    var v' := Put(v, i, slot);
    assert SegOk(v, v.tail.seg);
    FilledAfter(v.segs[v.tail.seg].items, i, slot);
    forall s: nat | s < |v'.segs| ensures SegOk(v', s) {
      assert SegOk(v, s);
    }
    forall a, b | 0 <= a <= b < |v'.segOf|
      ensures v'.segOf[a] <= v'.segOf[b] && (v'.segOf[a] == v'.segOf[b] ==> b - a < v.k)
    {
      if a < |v.arrived| {
        AtArrival(v, a);
      }
    }
  }

  /** Putting an item into a free slot of the segment at tail. */
  lemma PutInv(v: View, i: nat, slot: Slot)
    requires Inv(v) && i < v.k && v.segs[v.tail.seg].items[i].value == NULL
    requires slot.value != NULL && slot.value !in v.arrived
    ensures Inv(Put(v, i, slot))
  {
    PutArrivals(v, i, slot);
    PutSlots(v, i, slot);
    PutOrder(v, i, slot);
  }

  /** A new segment is linked, and tail moves there. */
  function Grow(v: View, aba: nat): View
    requires |v.segs| > 0
  {
    var t := |v.segs| - 1;
    v.(segs := v.segs[t := v.segs[t].(next := Ptr(|v.segs|, 1))] + [NewSegment(v.k)], tail := Ptr(|v.segs|, aba),
       first := |v.arrived|)
  }

  lemma GrowArrivals(v: View, aba: nat)
    requires Inv(v)
    ensures Arrivals(Grow(v, aba))
  {
    hide Slots, Order;
    var v' := Grow(v, aba);
    forall a: nat | a < |v.arrived| ensures ArrivalOk(v', a) {
      AtArrival(v, a);
      if v.arrived[a] !in v.taken {
        var j :| 0 <= j < |v.segs[v.segOf[a]].items| && v.segs[v.segOf[a]].items[j].value == v.arrived[a];
        assert v'.segs[v.segOf[a]].items[j].value == v.arrived[a];
      }
    }
  }

  lemma GrowSlots(v: View, aba: nat)
    requires Inv(v)
    ensures Slots(Grow(v, aba))
  {
    hide Arrivals, Order;
    var v' := Grow(v, aba);
    forall s: nat, j: nat | s < |v'.segs| && j < |v'.segs[s].items| ensures SlotOk(v', s, j) {
      if s < |v.segs| { AtSlot(v, s, j); }
    }
  }

  lemma GrowInv(v: View, aba: nat)
    requires Inv(v)
    ensures Inv(Grow(v, aba))
  {
    GrowArrivals(v, aba);
    GrowSlots(v, aba);
    var v' := Grow(v, aba);
    NoneFilled(NewSegment(v.k).items);
    forall s: nat | s < |v'.segs| ensures SegOk(v', s) {
      assert s < |v.segs| ==> SegOk(v, s);
    }
    forall a: nat | a < |v.arrived| ensures v.segOf[a] <= v.tail.seg {
      AtArrival(v, a);
    }
    hide Arrivals, Slots;
  }

  // ------------------------------------------------------------------ dequeue

  /** An item is taken from a slot of the segment at head, which is not the one at tail any more. */
  function Take(v: View, i: nat): View
    requires 0 <= v.head.seg < |v.segs| && i < |v.segs[v.head.seg].items|
  {
    var slot := v.segs[v.head.seg].items[i];
    v.(segs := SetSlotIn(v.segs, v.head.seg, i, Slot(NULL, slot.aba + 1)), taken := v.taken + {slot.value})
  }

  lemma TakeArrivals(v: View, i: nat)
    requires Inv(v) && v.head.seg < v.tail.seg && i < v.k && v.segs[v.head.seg].items[i].value != NULL
    ensures Arrivals(Take(v, i))
  {
    hide Order;
    var v' := Take(v, i);
    assert SegOk(v, v.head.seg);
    AtSlot(v, v.head.seg, i);
    forall a: nat | a < |v.arrived| ensures ArrivalOk(v', a) {
      AtArrival(v, a);
      if v.arrived[a] !in v'.taken {
        var j :| 0 <= j < |v.segs[v.segOf[a]].items| && v.segs[v.segOf[a]].items[j].value == v.arrived[a];
        assert v'.segs[v.segOf[a]].items[j].value == v.arrived[a];
      }
    }
  }

  lemma TakeSlots(v: View, i: nat)
    requires Inv(v) && v.head.seg < v.tail.seg && i < v.k && v.segs[v.head.seg].items[i].value != NULL
    ensures Slots(Take(v, i))
  {
    hide Order;
    var v' := Take(v, i);
    var x := v.segs[v.head.seg].items[i].value;
    assert SegOk(v, v.head.seg);
    AtSlot(v, v.head.seg, i);
    forall s: nat, j: nat | s < |v'.segs| && j < |v'.segs[s].items| ensures SlotOk(v', s, j) {
      AtSlot(v, s, j);
      forall j1 | 0 <= j1 < |v'.segs[s].items| && j1 != j
        ensures v'.segs[s].items[j].value != NULL ==> v'.segs[s].items[j1].value != v'.segs[s].items[j].value
      {
        AtSlot(v, s, j1);
      }
    }
  }

  lemma TakeOrder(v: View, i: nat)
    requires Inv(v) && v.head.seg < v.tail.seg && i < v.k && v.segs[v.head.seg].items[i].value != NULL
    ensures Shape(Take(v, i)) && Order(Take(v, i)) && OnlyHeadTouched(Take(v, i))
  {
    hide Slots;
    var v' := Take(v, i);
    assert SegOk(v, v.head.seg);
    forall s: nat | s < |v'.segs| ensures SegOk(v', s) {
      assert SegOk(v, s);
    }
    SlotArrival(v, i);
    hide SegOk, ArrivalOk;
  }

  /** An item at head did not arrive in the segment at tail. */
  lemma SlotArrival(v: View, i: nat)
    requires Inv(v) && v.head.seg < v.tail.seg && i < v.k && v.segs[v.head.seg].items[i].value != NULL
    ensures i < |v.segs[v.head.seg].items| && |v.arrived| == |v.segOf|
    ensures forall a {:trigger v.arrived[a]} :: 0 <= a < |v.arrived| && v.arrived[a] == v.segs[v.head.seg].items[i].value ==>
              v.segOf[a] == v.head.seg
  {
    hide Order, OnlyHeadTouched;
    assert SegOk(v, v.head.seg);
    AtSlot(v, v.head.seg, i);
  }

  lemma TakeInv(v: View, i: nat)
    requires Inv(v) && v.head.seg < v.tail.seg && i < v.k && v.segs[v.head.seg].items[i].value != NULL
    ensures Inv(Take(v, i))
  {
    TakeArrivals(v, i);
    TakeSlots(v, i);
    TakeOrder(v, i);
  }

  /** Head leaves a segment without items. */
  function Leave(v: View): View
    requires 0 <= v.head.seg < |v.segs|
  {
    v.(segs := v.segs[v.head.seg := v.segs[v.head.seg].(deleted := true)], head := Ptr(v.head.seg + 1, v.head.aba + 1))
  }

  lemma LeaveInv(v: View)
    requires Inv(v) && v.head.seg < v.tail.seg
    requires forall i {:trigger v.segs[v.head.seg].items[i]} :: 0 <= i < |v.segs[v.head.seg].items| ==>
               v.segs[v.head.seg].items[i].value == NULL
    ensures Inv(Leave(v))
  {
    var v' := Leave(v);
    forall s: nat | s < |v'.segs| ensures SegOk(v', s) {
      assert SegOk(v, s);
    }
    forall a: nat | a < |v.arrived| ensures ArrivalOk(v', a) {
      AtArrival(v, a);
      if v.arrived[a] !in v.taken {
        var j :| 0 <= j < |v.segs[v.segOf[a]].items| && v.segs[v.segOf[a]].items[j].value == v.arrived[a];
        assert v'.segs[v.segOf[a]].items[j].value == v.arrived[a];
      }
    }
    forall s: nat, j: nat | s < |v'.segs| && j < |v'.segs[s].items| ensures SlotOk(v', s, j) {
      AtSlot(v, s, j);
    }
  }

  // ------------------------------------------------------------------ the bounds

  /** The younger items that have been dequeued. */
  function Overtaking(arrived: seq<int>, taken: set<int>, i: nat): set<nat> {
    set j: nat | i < j < |arrived| && arrived[j] in taken
  }

  /** The older items that have not been dequeued. */
  function LeftBehind(arrived: seq<int>, taken: set<int>, i: nat): set<nat> {
    set j: nat | j < i && j < |arrived| && arrived[j] !in taken
  }

  /** Fewer than k younger items are dequeued before any item. */
  lemma BoundedOvertaking(v: View, i: nat)
    requires Inv(v) && i < |v.arrived| && v.arrived[i] !in v.taken
    ensures |Overtaking(v.arrived, v.taken, i)| < v.k
  {
    forall j | j in Overtaking(v.arrived, v.taken, i) ensures i + 1 <= j < i + v.k {
      AtArrival(v, i);
      AtArrival(v, j);
    }
    Interval(i + 1, i + v.k, Overtaking(v.arrived, v.taken, i));
  }

  /** An item in the segment at head has fewer than k older ones in the queue. */
  lemma BoundedLeftBehind(v: View, i: nat)
    requires Inv(v) && i < |v.arrived| && v.segOf[i] == v.head.seg
    ensures |LeftBehind(v.arrived, v.taken, i)| < v.k
  {
    forall j | j in LeftBehind(v.arrived, v.taken, i) ensures i + 1 - v.k <= j < i {
      AtArrival(v, j);
    }
    Interval(if i + 1 < v.k then 0 else i + 1 - v.k, i, LeftBehind(v.arrived, v.taken, i));
  }

  // ------------------------------------------------------------------ the operations

  ghost predicate HasFree(segs: seq<Segment>, s: int) {
    0 <= s < |segs| && exists i :: 0 <= i < |segs[s].items| && segs[s].items[i].value == NULL
  }

  /** The version of head does not matter. */
  lemma SameButHead(v: View, p: Ptr)
    requires Inv(v) && p.seg == v.head.seg
    ensures Inv(v.(head := p))
  {
    var v' := v.(head := p);
    forall s: nat | s < |v.segs| ensures SegOk(v', s) {
      assert SegOk(v, s);
    }
    forall a: nat | a < |v.arrived| ensures ArrivalOk(v', a) {
      AtArrival(v, a);
    }
    forall s: nat, j: nat | s < |v.segs| && j < |v.segs[s].items| ensures SlotOk(v', s, j) {
      AtSlot(v, s, j);
    }
  }

  /** When the segment at head, which is the one at tail, is empty, everything has been dequeued. */
  lemma NothingLeft(v: View)
    requires Inv(v) && v.head.seg == v.tail.seg
    requires forall i {:trigger v.segs[v.head.seg].items[i]} :: 0 <= i < v.k ==> v.segs[v.head.seg].items[i].value == NULL
    ensures forall i {:trigger v.arrived[i]} :: 0 <= i < |v.arrived| ==> v.arrived[i] in v.taken
  {
    assert SegOk(v, v.head.seg);
    forall i | 0 <= i < |v.arrived| ensures v.arrived[i] in v.taken {
      AtArrival(v, i);
    }
  }

  /** The item in a slot of the segment at head: when it arrived. */
  lemma ArrivalOf(v: View, i: nat) returns (a: nat)
    requires Inv(v) && i < v.k && v.segs[v.head.seg].items[i].value != NULL
    ensures a < |v.arrived| && v.arrived[a] == v.segs[v.head.seg].items[i].value && v.arrived[a] !in v.taken
    ensures |LeftBehind(v.arrived, v.taken, a)| < v.k
  {
    assert SegOk(v, v.head.seg);
    AtSlot(v, v.head.seg, i);
    a :| 0 <= a < |v.arrived| && v.arrived[a] == v.segs[v.head.seg].items[i].value && v.segOf[a] == v.head.seg;
    BoundedLeftBehind(v, a);
  }

  class KFifo {
    const k: nat
    var segs: seq<Segment>
    var head: Ptr
    var tail: Ptr
    ghost var arrived: seq<int>
    ghost var segOf: seq<nat>
    ghost var taken: set<int>
    ghost var first: nat

    ghost function Snapshot(): View
      reads this
    {
      View(k, segs, head, tail, arrived, segOf, taken, first)
    }

    ghost predicate Valid()
      reads this
    {
      Inv(Snapshot())
    }

    constructor (k: nat)
      requires k > 0
      ensures Valid() && this.k == k && arrived == [] && taken == {}
    {
      this.k := k;
      segs, head, tail := [NewSegment(k)], Ptr(0, 0), Ptr(0, 0);
      arrived, segOf, taken, first := [], [], {}, 0;
      new;
      InitInv(k);
    }

    /** advance_tail, as it runs when nobody interferes. */
    method AdvanceTail(tailOld: Ptr)
      requires Valid() && tailOld == tail
      modifies this
      ensures Valid() && head == old(head) && tail.seg == old(tail.seg) + 1
      ensures arrived == old(arrived) && taken == old(taken) && segOf == old(segOf)
      ensures |segs| > |old(segs)| > old(tail).seg && segs[old(tail).seg].items == old(segs)[old(tail).seg].items
      ensures HasFree(segs, tail.seg)
    {
      ghost var v := Snapshot();
      assert SegOk(v, tail.seg);
      var next := segs[tailOld.seg].next;
      segs := segs[tailOld.seg := segs[tailOld.seg].(next := Ptr(|segs|, next.aba + 1))] + [NewSegment(k)];
      tail := Ptr(|segs| - 1, tailOld.aba + 1);
      first := |arrived|;
      GrowInv(v, tailOld.aba + 1);
      assert Snapshot() == Grow(v, tailOld.aba + 1);
    }

    /** committed: whether an item put into a slot stays there. Sequentially it always does. */
    method Committed(tailOld: Ptr, newItem: Slot, index: nat) returns (ok: bool)
      requires 0 <= tailOld.seg < |segs| && index < |segs[tailOld.seg].items|
      modifies this`segs, this`head
      ensures ok <==> old(segs)[tailOld.seg].items[index] != newItem || !old(segs)[tailOld.seg].deleted
      ensures ok ==> segs == old(segs) && head.seg == old(head).seg
    {
      if segs[tailOld.seg].items[index] != newItem {
        return true;
      }
      var headCurrent := head;
      if segs[tailOld.seg].deleted {
        segs := SetSlotIn(segs, tailOld.seg, index, EMPTY);
        return false;
      } else if tailOld.seg == headCurrent.seg {
        head := Ptr(headCurrent.seg, headCurrent.aba + 1);
        return true;
      } else {
        return true;
      }
    }

    /** The item is the last to arrive; nothing else changes. */
    method Enqueue(item: int)
      requires Valid() && item != NULL && item !in arrived
      modifies this
      ensures Valid() && arrived == old(arrived) + [item] && taken == old(taken)
    {
      hide Arrivals, Slots, Order, OnlyHeadTouched;
      while true
        invariant Valid() && arrived == old(arrived) && taken == old(taken)
        decreases !HasFree(segs, tail.seg)
      {
        var tailOld := tail;
        ghost var v := Snapshot();
        assert SegOk(v, tail.seg);
        var index, slot := FindIndex(segs[tailOld.seg].items, true);
        if index.Some? {
          var newItem := Slot(item, slot.aba + 1);
          PutInv(v, index.value, newItem);
          segs := SetSlotIn(segs, tailOld.seg, index.value, newItem);
          arrived, segOf := arrived + [item], segOf + [tailOld.seg];
          ghost var w := Snapshot();
          assert w == Put(v, index.value, newItem);
          var ok := Committed(tailOld, newItem, index.value);
          SameButHead(w, head);
          if ok {
            return;
          }
        } else {
          AdvanceTail(tailOld);
        }
      }
    }

    /** advance_head, when head is not at tail and its segment is empty. */
    method AdvanceHead(headOld: Ptr)
      requires Valid() && headOld == head && head.seg < tail.seg
      requires forall i {:trigger segs[head.seg].items[i]} :: 0 <= i < k ==> segs[head.seg].items[i].value == NULL
      modifies this`segs, this`head
      ensures Valid() && head.seg == old(head).seg + 1
    {
      ghost var v := Snapshot();
      assert SegOk(v, head.seg);
      var headNext := segs[headOld.seg].next;
      LeaveInv(v);
      segs := segs[headOld.seg := segs[headOld.seg].(deleted := true)];
      head := Ptr(headNext.seg, headOld.aba + 1);
      assert Snapshot() == Leave(v);
    }

    /** The answer is false exactly if everything that has arrived has been dequeued; otherwise the item is
        one that had not, and fewer than k older ones are left behind. */
    method Dequeue() returns (ok: bool, item: int, ghost a: nat)
      requires Valid()
      modifies this
      ensures Valid() && arrived == old(arrived)
      ensures !ok ==> taken == old(taken) && forall i {:trigger arrived[i]} :: 0 <= i < |arrived| ==> arrived[i] in taken
      ensures ok ==> a < |arrived| && item == arrived[a] && item !in old(taken) && taken == old(taken) + {item}
      ensures ok ==> |LeftBehind(arrived, old(taken), a)| < k
    {
      hide Arrivals, Slots, Order, OnlyHeadTouched;
      while true
        invariant Valid() && arrived == old(arrived) && taken == old(taken)
        decreases tail.seg - head.seg
      {
        var headOld := head;
        ghost var v := Snapshot();
        assert SegOk(v, head.seg);
        var index, slot := FindIndex(segs[headOld.seg].items, false);
        var tailOld := tail;
        if index.Some? {
          a := ArrivalOf(v, index.value);
          if headOld.seg == tailOld.seg {
            AdvanceTail(tailOld);
          }
          ghost var w := Snapshot();
          TakeInv(w, index.value);
          if segs[headOld.seg].items[index.value] == slot {
            segs := SetSlotIn(segs, headOld.seg, index.value, Slot(NULL, slot.aba + 1));
            taken := taken + {slot.value};
            assert Snapshot() == Take(w, index.value);
            return true, slot.value, a;
          }
        } else {
          if headOld.seg == tailOld.seg {
            NothingLeft(v);
            return false, NULL, 0;
          }
          AdvanceHead(headOld);
        }
      }
    }
  }
}
