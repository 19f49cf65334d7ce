/** Every write to the shared memory of the k-stack keeps the invariant, and stays within the relation
    the other threads rely on. */
module KStackActions {
  import opened Basics
  import opened Segments
  import opened KStackModel
  import opened KStackInvariant

  /** A step of thread `u`. */
  ghost predicate Guarantee(h: Heap, h': Heap, u: nat) {
    forall t: nat {:trigger Rely(h, h', t)} :: t != u ==> Rely(h, h', t)
  }

  /** The relation of every other thread, from its parts. */
  lemma GuaranteeIntro(h: Heap, h': Heap, u: nat)
    requires h'.k == h.k && |h.segs| <= |h'.segs| && TopLe(h.top, h'.top) && h.log <= h'.log
    requires forall t: nat, s: nat {:trigger SegStep(h, h', t, s)} :: t != u ==> SegStep(h, h', t, s)
    requires forall s: nat, i: nat {:trigger SlotStep(h, h', s, i)} :: SlotStep(h, h', s, i)
    requires forall x {:trigger OwnStep(h, h', x)} :: x in h.owner && h.owner[x] != u ==> OwnStep(h, h', x)
    requires forall x {:trigger SafeStep(h, h', x)} :: SafeStep(h, h', x)
    requires forall x {:trigger x in h'.owner} {:trigger x in h.owner} :: x in h.owner ==> x in h'.owner && h'.owner[x] == h.owner[x]
    ensures Guarantee(h, h', u)
  {
  }

  // ------------------------------------------------------------------ slots

  lemma SlotSet(h: Heap, s: int, i: nat, slot: Slot, s1: int, i1: nat)
    requires Shape(h) && 0 <= s < |h.segs| && i < h.k
    ensures SlotAt(SetSlot(h, s, i, slot), s1, i1) == if s1 == s && i1 == i then slot else SlotAt(h, s1, i1)
  {
  }

  /** The parts of the shape. */
  lemma ShapeIntro(h: Heap, h': Heap)
    requires Shape(h) && h'.k == h.k && h'.live == h.live && h'.top.seg == h.top.seg && |h'.segs| == |h.segs|
    requires forall s: nat {:trigger h'.segs[s]} {:trigger h.segs[s]} :: s < |h.segs| ==>
               && |h'.segs[s].items| == h.k && h'.segs[s].next == h.segs[s].next
               && h'.segs[s].remove == |h'.segs[s].removers|
               && (None in h'.segs[s].removers <==> None in h.segs[s].removers)
    ensures Shape(h')
  {
    forall i: nat ensures LinkOk(h', i) {
      AtLink(h, i);
    }
    forall s: nat | s < |h'.segs| ensures SegOk(h', s) {
      assert SegOk(h, s);
    }
  }

  lemma SlotShape(h: Heap, h': Heap, s: int, i: nat, slot: Slot)
    requires Shape(h) && 0 <= s < |h.segs| && i < h.k
    requires h'.k == h.k && h'.segs == SetSlot(h, s, i, slot).segs && h'.live == h.live && h'.top == h.top
    ensures Shape(h')
    ensures forall t: nat, n: nat {:trigger SegStep(h, h', t, n)} :: SegStep(h, h', t, n)
  {
    forall n: nat | n < |h.segs| ensures SegOk(h, n) {}
    ShapeIntro(h, h');
  }

  lemma PutItemKeeps(h: Heap, s: int, i: nat, slot: Slot, u: nat)
    requires Core(h) && 0 <= s < |h.segs| && i < h.k && SlotAt(h, s, i).value == NULL
    requires slot.aba > SlotAt(h, s, i).aba
    requires slot.value != NULL && slot.value !in h.status && slot.value !in h.done
    requires slot.value in h.owner && h.owner[slot.value] == u
    ensures Core(PutItem(h, s, i, slot)) && Guarantee(h, PutItem(h, s, i, slot), u)
  {
    var h' := PutItem(h, s, i, slot);
    SlotShape(h, h', s, i, slot);
    forall x ensures ItemOk(h', x) {
      AtItem(h, x);
      if x in h.status && h.status[x].Placed? {
        SlotSet(h, s, i, slot, h.status[x].seg, h.status[x].slot);
      }
      SlotSet(h, s, i, slot, s, i);
    }
    forall s1: nat, i1: nat ensures SlotOk(h', s1, i1) && SlotStep(h, h', s1, i1) {
      AtSlot(h, s1, i1);
      SlotSet(h, s, i, slot, s1, i1);
    }
    forall x | x in h.owner && h.owner[x] != u ensures OwnStep(h, h', x) {
      AtItem(h, x);
      if x in h.status && h.status[x].Placed? {
        SlotSet(h, s, i, slot, h.status[x].seg, h.status[x].slot);
      }
    }
    forall x ensures SafeStep(h, h', x) {}
    GuaranteeIntro(h, h', u);
  }

  lemma TakeItemKeeps(h: Heap, s: int, i: nat, slot: Slot, u: nat, op: nat)
    requires Core(h) && 0 <= s < |h.segs| && i < h.k && SlotAt(h, s, i) == slot && slot.value != NULL
    ensures var h' := TakeItem(h, s, i, slot, u, op);
            Core(h') && Guarantee(h, h', u) && Removal(u, op, slot.value) in h'.log
  {
    var h' := TakeItem(h, s, i, slot, u, op);
    var empty := Slot(NULL, slot.aba + 1);
    SlotShape(h, h', s, i, empty);
    AtSlot(h, s, i);
    AtItem(h, slot.value);
    EmptySlotItems(h, h', s, i, slot);
    TakeItemHistory(h, s, i, slot, u, op);
    forall x | x in h.owner && h.owner[x] != u ensures OwnStep(h, h', x) {
      AtItem(h, x);
      if x in h.status && h.status[x].Placed? {
        SlotSet(h, s, i, empty, h.status[x].seg, h.status[x].slot);
      }
    }
    forall x ensures SafeStep(h, h', x) {}
    GuaranteeIntro(h, h', u);
    assert h'.log[|h.log|] == Removal(u, op, slot.value);
  }

  /** A slot becomes empty; the item has been taken or retracted. */
  lemma EmptySlotItems(h: Heap, h': Heap, s: int, i: nat, slot: Slot)
    requires Shape(h) && Items(h) && 0 <= s < |h.segs| && i < h.k && SlotAt(h, s, i) == slot && slot.value != NULL
    requires h'.segs == SetSlot(h, s, i, Slot(NULL, slot.aba + 1)).segs
    requires h'.k == h.k && h'.owner == h.owner && h'.live == h.live
    requires h'.status == h.status[slot.value := Taken] || h'.status == h.status - {slot.value}
    ensures Items(h')
    ensures forall s: nat, i: nat {:trigger SlotStep(h, h', s, i)} :: SlotStep(h, h', s, i)
  {
    var empty := Slot(NULL, slot.aba + 1);
    AtSlot(h, s, i);
    AtItem(h, slot.value);
    forall x ensures ItemOk(h', x) {
      AtItem(h, x);
      if x in h.status && h.status[x].Placed? {
        SlotSet(h, s, i, empty, h.status[x].seg, h.status[x].slot);
      }
    }
    forall s1: nat, i1: nat ensures SlotOk(h', s1, i1) && SlotStep(h, h', s1, i1) {
      AtSlot(h, s1, i1);
      SlotSet(h, s, i, empty, s1, i1);
    }
  }

  lemma TakeItemHistory(h: Heap, s: int, i: nat, slot: Slot, u: nat, op: nat)
    requires Core(h) && 0 <= s < |h.segs| && i < h.k && SlotAt(h, s, i) == slot && slot.value != NULL
    ensures History(TakeItem(h, s, i, slot, u, op))
  {
    var h' := TakeItem(h, s, i, slot, u, op);
    AtSlot(h, s, i);
    forall a, b | 0 <= a < b < |h'.log| ensures h'.log[a].item != h'.log[b].item {
      assert h'.log[a] == h.log[a];
    }
    forall x | x in h'.status && h'.status[x].Taken?
      ensures exists j :: 0 <= j < |h'.log| && h'.log[j].item == x
    {
      if x == slot.value {
        assert h'.log[|h.log|].item == x;
      } else {
        var j :| 0 <= j < |h.log| && h.log[j].item == x;
        assert h'.log[j].item == x;
      }
    }
  }

  lemma RetractItemKeeps(h: Heap, s: int, i: nat, slot: Slot, u: nat)
    requires Core(h) && 0 <= s < |h.segs| && i < h.k && SlotAt(h, s, i) == slot && slot.value != NULL
    requires slot.value in h.status && h.status[slot.value].Placed? && !h.status[slot.value].safe
    requires slot.value in h.owner && h.owner[slot.value] == u && slot.value !in h.done
    ensures var h' := RetractItem(h, s, i, slot); Core(h') && Guarantee(h, h', u)
  {
    var h' := RetractItem(h, s, i, slot);
    var empty := Slot(NULL, slot.aba + 1);
    SlotShape(h, h', s, i, empty);
    AtSlot(h, s, i);
    EmptySlotItems(h, h', s, i, slot);
    forall x | x in h.owner && h.owner[x] != u ensures OwnStep(h, h', x) {
      AtItem(h, x);
      if x in h.status && h.status[x].Placed? {
        SlotSet(h, s, i, empty, h.status[x].seg, h.status[x].slot);
      }
    }
    forall x ensures SafeStep(h, h', x) {}
    GuaranteeIntro(h, h', u);
  }

  // ------------------------------------------------------------------ protection

  /** What is common to the two ways in which a push makes its item safe. */
  lemma ProtectKeeps(h: Heap, h': Heap, x: int, u: nat)
    requires Core(h) && x in h.status && x in h.owner && h.owner[x] == u && x !in h.done
    requires h' == Protect(h.(top := h'.top), x) && h'.top.seg == h.top.seg && h'.top.aba >= h.top.aba
    requires h.status[x].Placed? ==> !h.status[x].safe && h.status[x].seg in h.live
    requires h'.top.aba == h.top.aba && h.status[x].Placed? ==> SegAt(h, h.status[x].seg).removers == {}
    ensures Core(h') && Guarantee(h, h', u) && Safe(h', x)
  {
    forall n: nat | n < |h.segs| ensures SegOk(h, n) {}
    ShapeIntro(h, h');
    forall y ensures ItemOk(h', y) {
      AtItem(h, y);
    }
    forall s: nat, i: nat ensures SlotOk(h', s, i) && SlotStep(h, h', s, i) {
      AtSlot(h, s, i);
    }
    forall y | y in h.owner && h.owner[y] != u ensures OwnStep(h, h', y) {}
    forall y ensures SafeStep(h, h', y) {}
    GuaranteeIntro(h, h', u);
  }

  /** A push that finds no one removing its segment has made its item safe. */
  lemma ClearKeeps(h: Heap, x: int, u: nat)
    requires Core(h) && x in h.status && x in h.owner && h.owner[x] == u && x !in h.done
    requires h.status[x].Placed? ==> !h.status[x].safe && SegAt(h, h.status[x].seg).remove == 0
    ensures var h' := Protect(h, x);
            && Core(h') && Guarantee(h, h', u) && Safe(h', x)
            && h'.segs == h.segs && h'.owner == h.owner && h'.done == h.done
  {
    AtItem(h, x);
    if h.status[x].Placed? { assert SegOk(h, h.status[x].seg); }
    ProtectKeeps(h, Protect(h, x), x, u);
  }

  /** A push that changes top while its segment is top has made its item safe. */
  lemma AnchorKeeps(h: Heap, x: int, u: nat)
    requires Core(h) && x in h.status && x in h.owner && h.owner[x] == u && x !in h.done
    requires h.status[x].Placed? ==> !h.status[x].safe && h.status[x].seg == h.top.seg
    ensures var h' := Protect(h.(top := Ptr(h.top.seg, h.top.aba + 1)), x);
            && Core(h') && Guarantee(h, h', u) && Safe(h', x)
            && h'.segs == h.segs && h'.owner == h.owner && h'.done == h.done
  {
    hide Items, History, LinkOk, SegOk;
    assert h.live[|h.live| - 1] in h.live;
    ProtectKeeps(h, Protect(h.(top := Ptr(h.top.seg, h.top.aba + 1)), x), x, u);
  }

  // ------------------------------------------------------------------ the remove counter

  /** The slots and the statuses are untouched: what is left to show is the shape. */
  lemma FrameKeeps(h: Heap, h': Heap, u: nat)
    requires Core(h) && Shape(h') && h'.k == h.k && |h.segs| <= |h'.segs| && TopLe(h.top, h'.top)
    requires h' == h.(segs := h'.segs, top := h'.top, live := h'.live)
    requires forall s: nat, i: nat {:trigger SlotAt(h', s, i)} :: SlotAt(h', s, i) == SlotAt(h, s, i)
    requires forall t: nat, s: nat {:trigger SegStep(h, h', t, s)} :: t != u ==> SegStep(h, h', t, s)
    requires forall x {:trigger x in h.status} :: x in h.status && h.status[x].Placed? && h.status[x].safe ==>
               h.status[x].seg in h'.live
    ensures Core(h') && Guarantee(h, h', u)
  {
    forall x ensures ItemOk(h', x) {
      AtItem(h, x);
    }
    forall s: nat, i: nat ensures SlotOk(h', s, i) && SlotStep(h, h', s, i) {
      AtSlot(h, s, i);
    }
    forall x | x in h.owner && h.owner[x] != u ensures OwnStep(h, h', x) {}
    forall x ensures SafeStep(h, h', x) {}
    GuaranteeIntro(h, h', u);
  }

  lemma SafeIsLive(h: Heap)
    requires Core(h)
    ensures forall x {:trigger x in h.status} :: x in h.status && h.status[x].Placed? && h.status[x].safe ==>
              h.status[x].seg in h.live
  {
    forall x | x in h.status && h.status[x].Placed? && h.status[x].safe ensures h.status[x].seg in h.live {
      AtItem(h, x);
    }
  }

  lemma CounterKeeps(h: Heap, s: int, remove: int, removers: set<Option<nat>>, u: nat)
    requires Core(h) && 0 <= s < |h.segs| && remove == |removers|
    requires forall r {:trigger r in removers} {:trigger r in h.segs[s].removers} :: r != Some(u) ==>
               (r in removers <==> r in h.segs[s].removers)
    ensures var h' := SetSegment(h, s, remove, removers); Core(h') && Guarantee(h, h', u)
  {
    var h' := SetSegment(h, s, remove, removers);
    forall n: nat | n < |h.segs| ensures SegOk(h, n) {}
    ShapeIntro(h, h');
    SafeIsLive(h);
    FrameKeeps(h, h', u);
  }

  lemma AddRemoverKeeps(h: Heap, s: int, u: nat)
    requires Core(h) && 0 <= s < |h.segs| && RemovingAt(h, u, NIL)
    ensures var h' := AddRemover(h, s, u); Core(h') && Guarantee(h, h', u) && RemovingAt(h', u, s)
  {
    assert SegOk(h, s);
    CounterKeeps(h, s, h.segs[s].remove + 1, h.segs[s].removers + {Some(u)}, u);
  }

  lemma SubRemoverKeeps(h: Heap, s: int, u: nat)
    requires Core(h) && 0 <= s < |h.segs| && RemovingAt(h, u, s)
    ensures var h' := SubRemover(h, s, u); Core(h') && Guarantee(h, h', u) && RemovingAt(h', u, NIL)
  {
    assert SegOk(h, s);
    CounterKeeps(h, s, h.segs[s].remove - 1, h.segs[s].removers - {Some(u)}, u);
  }

  // ------------------------------------------------------------------ adding and removing segments

  lemma AddSegmentShape(h: Heap)
    requires Shape(h)
    ensures Shape(AddSegment(h))
  {
    var h' := AddSegment(h);
    forall i: nat ensures LinkOk(h', i) {
      AtLink(h, i);
    }
    forall s: nat | s < |h'.segs| ensures SegOk(h', s) {
      if s < |h.segs| {
        assert SegOk(h, s);
        assert s in h'.live <==> s in h.live;
      } else {
        assert h'.live[|h.live|] == s;
      }
    }
  }

  lemma AddSegmentKeeps(h: Heap, u: nat)
    requires Core(h)
    ensures var h' := AddSegment(h);
            Core(h') && Guarantee(h, h', u) && (RemovingAt(h, u, NIL) ==> RemovingAt(h', u, NIL))
  {
    var h' := AddSegment(h);
    AddSegmentShape(h);
    SafeIsLive(h);
    forall s: nat, i: nat ensures SlotAt(h', s, i) == SlotAt(h, s, i) {}
    FrameKeeps(h, h', u);
  }

  /** No safe item is in segment `s`. */
  ghost predicate NoSafe(h: Heap, s: int) {
    forall x {:trigger x in h.status} :: x in h.status && h.status[x].Placed? && h.status[x].seg == s ==>
      !h.status[x].safe
  }

  /** The segment under top. */
  lemma UnderTop(h: Heap)
    requires Shape(h) && SegAt(h, h.top.seg).next != NIL
    ensures |h.live| > 1 && SegAt(h, h.top.seg).next == h.live[|h.live| - 2]
  {
    AtLink(h, |h.live| - 1);
  }

  lemma RemoveSegmentCounter(h: Heap, next: int, u: nat, n: nat)
    requires Shape(h) && RemovingAt(h, u, h.top.seg) && n < |h.segs|
    ensures var h' := RemoveSegment(h, next, u); n < |h'.segs| && SegOk(h', n)
  {
    hide LinkOk;
    assert SegOk(h, n);
    assert h.live[|h.live| - 1] in h.live;
    assert n == h.top.seg ==> Some(u) in h.segs[n].removers;
    LiveButLast(h.live, n);
  }

  lemma RemoveSegmentShape(h: Heap, next: int, u: nat)
    requires Shape(h) && RemovingAt(h, u, h.top.seg) && next == SegAt(h, h.top.seg).next && next != NIL
    ensures Shape(RemoveSegment(h, next, u))
  {
    var h' := RemoveSegment(h, next, u);
    UnderTop(h);
    forall n: nat | n < |h'.segs| ensures SegOk(h', n) {
      RemoveSegmentCounter(h, next, u, n);
    }
    hide SegOk;
    forall i: nat ensures LinkOk(h', i) {
      AtLink(h, i);
    }
  }

  lemma LiveButLast(live: seq<nat>, n: nat)
    requires |live| > 0 && forall i, j {:trigger live[i], live[j]} :: 0 <= i < j < |live| ==> live[i] < live[j]
    ensures n in live[..|live| - 1] <==> n in live && n != live[|live| - 1]
  {
  }

  lemma RemoveSegmentKeeps(h: Heap, next: int, u: nat)
    requires Core(h) && RemovingAt(h, u, h.top.seg) && next == SegAt(h, h.top.seg).next && next != NIL
    requires NoSafe(h, h.top.seg)
    ensures var h' := RemoveSegment(h, next, u); Core(h') && Guarantee(h, h', u) && RemovingAt(h', u, NIL)
  {
    var h' := RemoveSegment(h, next, u);
    RemoveSegmentShape(h, next, u);
    SafeIsLive(h);
    forall x | x in h.status && h.status[x].Placed? && h.status[x].safe ensures h.status[x].seg in h'.live {
      LiveButLast(h.live, h.status[x].seg);
    }
    forall s: nat, i: nat ensures SlotAt(h', s, i) == SlotAt(h, s, i) {}
    FrameKeeps(h, h', u);
  }

  // ------------------------------------------------------------------ callers

  lemma HistoryKeeps(h: Heap, h': Heap, u: nat)
    requires Core(h) && h' == h.(owner := h'.owner, done := h'.done)
    requires forall x {:trigger x in h'.owner} {:trigger x in h.owner} :: x in h.owner ==> x in h'.owner && h'.owner[x] == h.owner[x]
    requires forall x {:trigger x in h'.done} :: x in h'.done ==> x in h.done || (x in h.owner && h.owner[x] == u && Safe(h, x))
    ensures Core(h') && Guarantee(h, h', u)
  {
    forall n: nat | n < |h.segs| ensures SegOk(h, n) {}
    ShapeIntro(h, h');
    forall x ensures ItemOk(h', x) {
      AtItem(h, x);
    }
    forall s: nat, i: nat ensures SlotOk(h', s, i) && SlotStep(h, h', s, i) {
      AtSlot(h, s, i);
    }
    forall x | x in h.owner && h.owner[x] != u ensures OwnStep(h, h', x) {}
    forall x ensures SafeStep(h, h', x) {}
    GuaranteeIntro(h, h', u);
  }
}
