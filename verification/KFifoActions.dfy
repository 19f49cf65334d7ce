/** Every write to the shared memory of the k-FIFO queue keeps the invariant, and stays within the
    relation the other threads rely on. */
module KFifoActions {
  import opened Segments
  import opened KFifoModel
  import opened KFifoInvariant

  /** A step of thread `u`. */
  ghost predicate Guarantee(h: Heap, h': Heap, u: nat) {
    forall t: nat {:trigger Rely(h, h', t)} :: t != u ==> Rely(h, h', t)
  }

  // ------------------------------------------------------------------ slots

  lemma PutAt(h: Heap, s: int, i: nat, slot: Slot, s1: int, i1: nat)
    requires Shape(h) && 0 <= s < |h.segs| && i < h.k
    ensures SlotAt(SetSlot(h, s, i, slot), s1, i1) == if s1 == s && i1 == i then slot else SlotAt(h, s1, i1)
  {
  }

  lemma SetSlotShape(h: Heap, s: int, i: nat, slot: Slot)
    requires Shape(h) && 0 <= s < |h.segs| && i < h.k
    ensures Shape(SetSlot(h, s, i, slot))
    ensures var h' := SetSlot(h, s, i, slot);
            && h' == h.(segs := h'.segs) && |h'.segs| == |h.segs|
            && forall n: nat {:trigger h'.segs[n]} :: n < |h.segs| ==>
                 h'.segs[n].deleted == h.segs[n].deleted && h'.segs[n].next == h.segs[n].next
  {
    var h' := SetSlot(h, s, i, slot);
    forall n: nat | n < |h.segs| ensures SegOk(h', n) {
      assert SegOk(h, n);
    }
  }

  /** The segments, head and tail determine the shape. */
  lemma SameShape(h: Heap, h': Heap)
    requires Shape(h) && h'.k == h.k && h'.segs == h.segs && h'.head == h.head && h'.tail == h.tail
    ensures Shape(h')
  {
    forall n: nat | n < |h.segs| ensures SegOk(h', n) {
      assert SegOk(h, n);
    }
  }

  lemma PutItemKeeps(h: Heap, s: int, i: nat, slot: Slot, u: nat)
    requires Core(h) && 0 <= s <= h.tail.seg && i < h.k && SlotAt(h, s, i).value == NULL
    requires slot.value != NULL && slot.value !in h.status && slot.value !in h.done
    requires slot.value in h.owner && h.owner[slot.value] == u
    ensures Core(PutItem(h, s, i, slot)) && Guarantee(h, PutItem(h, s, i, slot), u)
  {
    var h' := PutItem(h, s, i, slot);
    SetSlotShape(h, s, i, slot);
    SameShape(SetSlot(h, s, i, slot), h');
    forall x ensures ItemOk(h', x) {
      AtItem(h, x);
      if x in h.status && h.status[x].Placed? {
        PutAt(h, s, i, slot, h.status[x].seg, h.status[x].slot);
      }
      PutAt(h, s, i, slot, s, i);
    }
    forall s1: nat, i1: nat ensures SlotOk(h', s1, i1) {
      AtSlot(h, s1, i1);
      PutAt(h, s, i, slot, s1, i1);
    }
    forall x | x in h.owner && h.owner[x] != u ensures OwnStep(h, h', x) {
      AtItem(h, x);
      if x in h.status && h.status[x].Placed? {
        PutAt(h, s, i, slot, h.status[x].seg, h.status[x].slot);
      }
    }
    forall x ensures ProtStep(h, h', x) {}
    forall n: nat ensures SegStep(h, h', n) {}
  }

  lemma TakeItemKeeps(h: Heap, s: int, i: nat, slot: Slot, u: nat, op: nat)
    requires Core(h) && 0 <= s < |h.segs| && i < h.k && SlotAt(h, s, i) == slot && slot.value != NULL
    ensures var h' := TakeItem(h, s, i, slot, u, op);
            Core(h') && Guarantee(h, h', u) && Removal(u, op, slot.value) in h'.log
  {
    var h' := TakeItem(h, s, i, slot, u, op);
    var empty := Slot(NULL, slot.aba + 1);
    SetSlotShape(h, s, i, empty);
    SameShape(SetSlot(h, s, i, empty), h');
    AtSlot(h, s, i);
    AtItem(h, slot.value);
    TakeItemItems(h, s, i, slot, u, op);
    TakeItemHistory(h, s, i, slot, u, op);
    forall x | x in h.owner && h.owner[x] != u ensures OwnStep(h, h', x) {
      AtItem(h, x);
      if x in h.status && h.status[x].Placed? {
        PutAt(h, s, i, empty, h.status[x].seg, h.status[x].slot);
      }
    }
    forall x ensures ProtStep(h, h', x) {}
    forall n: nat ensures SegStep(h, h', n) {}
    assert h'.log[|h.log|] == Removal(u, op, slot.value);
  }

  lemma TakeItemItems(h: Heap, s: int, i: nat, slot: Slot, u: nat, op: nat)
    requires Core(h) && 0 <= s < |h.segs| && i < h.k && SlotAt(h, s, i) == slot && slot.value != NULL
    ensures Items(TakeItem(h, s, i, slot, u, op))
  {
    hide History;
    var h' := TakeItem(h, s, i, slot, u, op);
    var empty := Slot(NULL, slot.aba + 1);
    SetSlotShape(h, s, i, empty);
    AtSlot(h, s, i);
    forall x ensures ItemOk(h', x) {
      AtItem(h, x);
      if x in h.status && h.status[x].Placed? {
        PutAt(h, s, i, empty, h.status[x].seg, h.status[x].slot);
      }
    }
    forall s1: nat, i1: nat ensures SlotOk(h', s1, i1) {
      AtSlot(h, s1, i1);
      PutAt(h, s, i, empty, s1, i1);
    }
  }

  lemma TakeItemHistory(h: Heap, s: int, i: nat, slot: Slot, u: nat, op: nat)
    requires Core(h) && 0 <= s < |h.segs| && i < h.k && SlotAt(h, s, i) == slot && slot.value != NULL
    ensures History(TakeItem(h, s, i, slot, u, op))
  {
    var h' := TakeItem(h, s, i, slot, u, op);
    AtSlot(h, s, i);
    forall a, b | 0 <= a < b < |h'.log| ensures h'.log[a].item != h'.log[b].item {
      assert h'.log[a] == h.log[a];
    }
    forall x | x in h'.status && h'.status[x].Taken?
      ensures exists j :: 0 <= j < |h'.log| && h'.log[j].item == x
    {
      if x == slot.value {
        assert h'.log[|h.log|].item == x;
      } else {
        var j :| 0 <= j < |h.log| && h.log[j].item == x;
        assert h'.log[j].item == x;
      }
    }
  }

  lemma RetractItemKeeps(h: Heap, s: int, i: nat, slot: Slot, u: nat)
    requires Core(h) && 0 <= s < |h.segs| && i < h.k && SlotAt(h, s, i) == slot && slot.value != NULL
    requires slot.value in h.status && h.status[slot.value].Placed? && h.status[slot.value].prot.Unsure?
    requires slot.value in h.owner && h.owner[slot.value] == u && slot.value !in h.done
    ensures var h' := RetractItem(h, s, i, slot); Core(h') && Guarantee(h, h', u)
  {
    var h' := RetractItem(h, s, i, slot);
    SetSlotShape(h, s, i, EMPTY);
    SameShape(SetSlot(h, s, i, EMPTY), h');
    AtSlot(h, s, i);
    forall x ensures ItemOk(h', x) {
      AtItem(h, x);
      if x in h.status && h.status[x].Placed? {
        PutAt(h, s, i, EMPTY, h.status[x].seg, h.status[x].slot);
      }
    }
    forall s1: nat, i1: nat ensures SlotOk(h', s1, i1) {
      AtSlot(h, s1, i1);
      PutAt(h, s, i, EMPTY, s1, i1);
    }
    forall x | x in h.owner && h.owner[x] != u ensures OwnStep(h, h', x) {
      AtItem(h, x);
      if x in h.status && h.status[x].Placed? {
        PutAt(h, s, i, EMPTY, h.status[x].seg, h.status[x].slot);
      }
    }
    forall x ensures ProtStep(h, h', x) {}
    forall n: nat ensures SegStep(h, h', n) {}
  }

  // ------------------------------------------------------------------ protection

  /** An item that is still in its segment when its enqueue reads a head behind the segment is safe. */
  lemma MarkAheadKeeps(h: Heap, x: int, s: int, u: nat)
    requires Core(h) && x in h.owner && h.owner[x] == u && x !in h.done && 0 <= s < |h.segs|
    requires x in h.status && (h.status[x].Placed? ==> h.status[x].seg == s && h.status[x].prot.Unsure?)
    ensures var h' := MarkAhead(h, x, s); Core(h') && Guarantee(h, h', u)
  {
    var h' := MarkAhead(h, x, s);
    SameShape(h, h');
    AtItem(h, x);
    assert SegOk(h, s);
    ProtectItems(h, h', x, u);
  }

  /** An item whose enqueue changes head while head is at its segment is safe. */
  lemma AnchorKeeps(h: Heap, x: int, u: nat)
    requires Core(h) && x in h.owner && h.owner[x] == u && x !in h.done
    requires x in h.status && (h.status[x].Placed? ==> h.status[x].seg == h.head.seg && h.status[x].prot.Unsure?)
    ensures var h' := Protect(h.(head := Ptr(h.head.seg, h.head.aba + 1)), x, Anchored);
            Core(h') && Guarantee(h, h', u) && Safe(h', x)
  {
    var h' := Protect(h.(head := Ptr(h.head.seg, h.head.aba + 1)), x, Anchored);
    forall n: nat | n < |h.segs| ensures SegOk(h', n) {
      assert SegOk(h, n);
    }
    AtItem(h, x);
    ProtectItems(h, h', x, u);
  }

  /** What is common to both. */
  lemma ProtectItems(h: Heap, h': Heap, x: int, u: nat)
    requires Core(h) && Shape(h') && x in h.status && x in h.owner && h.owner[x] == u && x !in h.done
    requires h' == h.(head := h'.head, status := h'.status) && h'.head.seg == h.head.seg && h'.head.aba >= h.head.aba
    requires h'.head.aba == h.head.aba ==> h'.head == h.head
    requires h'.status == h.status
             || (h.status[x].Placed? && h.status[x].prot.Unsure?
                 && exists prot :: h'.status == h.status[x := h.status[x].(prot := prot)])
    requires ItemOk(h', x) && ProtStep(h, h', x)
    ensures Core(h') && Guarantee(h, h', u)
  {
    forall y ensures ItemOk(h', y) {
      AtItem(h, y);
    }
    forall s: nat, i: nat ensures SlotOk(h', s, i) {
      AtSlot(h, s, i);
    }
    forall y | y in h.owner && h.owner[y] != u ensures OwnStep(h, h', y) {}
    forall y ensures ProtStep(h, h', y) {}
    forall n: nat ensures SegStep(h, h', n) {}
  }

  // ------------------------------------------------------------------ segments, tail and head

  /** The slots and the statuses are untouched: what is left to show is the shape. */
  lemma FrameKeeps(h: Heap, h': Heap, u: nat)
    requires Core(h) && Shape(h')
    requires h' == h.(segs := h'.segs, head := h'.head, tail := h'.tail)
    requires |h.segs| <= |h'.segs| && h'.tail.seg >= h.tail.seg && (h'.tail.seg == h.tail.seg ==> h'.tail == h.tail)
    requires h'.head == h.head || (h'.head.aba > h.head.aba && h'.head.seg >= h.head.seg)
    requires forall s: nat, i: nat {:trigger SlotAt(h', s, i)} :: SlotAt(h', s, i) == SlotAt(h, s, i)
    requires forall s: nat {:trigger SegStep(h, h', s)} :: SegStep(h, h', s)
    requires forall x {:trigger x in h.status} :: x in h.status && h.status[x].Placed? && !h.status[x].prot.Unsure? ==>
               && h.status[x].seg >= h'.head.seg
               && (h.status[x].prot.Ahead? ==> h.status[x].seg < |h'.segs| && !h'.segs[h.status[x].seg].deleted)
    ensures Core(h') && Guarantee(h, h', u)
  {
    forall x ensures ItemOk(h', x) {
      AtItem(h, x);
    }
    forall s: nat, i: nat ensures SlotOk(h', s, i) {
      AtSlot(h, s, i);
    }
    forall x | x in h.owner && h.owner[x] != u ensures OwnStep(h, h', x) {}
    forall x ensures ProtStep(h, h', x) {}
  }

  lemma LinkSegmentKeeps(h: Heap, u: nat)
    requires Core(h) && |h.segs| == h.tail.seg + 1
    ensures var h' := LinkSegment(h, h.tail.seg, 1); Core(h') && Guarantee(h, h', u)
  {
    var h' := LinkSegment(h, h.tail.seg, 1);
    forall n: nat | n < |h'.segs| ensures SegOk(h', n) {
      assert n < |h.segs| ==> SegOk(h, n);
    }
    forall s: nat, i: nat ensures SlotAt(h', s, i) == SlotAt(h, s, i) {}
    forall n: nat ensures SegStep(h, h', n) {
      assert n < |h.segs| ==> SegOk(h, n);
    }
    ProtectedAt(h);
    FrameKeeps(h, h', u);
  }

  lemma ProtectedAt(h: Heap)
    requires Core(h)
    ensures forall x {:trigger x in h.status} :: x in h.status && h.status[x].Placed? && !h.status[x].prot.Unsure? ==>
              && h.status[x].seg >= h.head.seg
              && h.status[x].seg < |h.segs|
              && (h.status[x].prot.Ahead? ==> !h.segs[h.status[x].seg].deleted)
  {
    forall x | x in h.status && h.status[x].Placed? && !h.status[x].prot.Unsure?
      ensures && h.status[x].seg >= h.head.seg
              && h.status[x].seg < |h.segs|
              && (h.status[x].prot.Ahead? ==> !h.segs[h.status[x].seg].deleted)
    {
      AtItem(h, x);
    }
  }

  lemma AdvanceTailKeeps(h: Heap, aba: nat, u: nat)
    requires Core(h) && h.tail.seg + 1 < |h.segs|
    ensures var h' := h.(tail := Ptr(h.tail.seg + 1, aba)); Core(h') && Guarantee(h, h', u)
  {
    var h' := h.(tail := Ptr(h.tail.seg + 1, aba));
    forall n: nat | n < |h'.segs| ensures SegOk(h', n) {
      assert SegOk(h, n);
    }
    forall s: nat, i: nat ensures SlotAt(h', s, i) == SlotAt(h, s, i) {}
    forall n: nat ensures SegStep(h, h', n) {}
    ProtectedAt(h);
    FrameKeeps(h, h', u);
  }

  /** No item that is safe because it was there first is in segment `s`. */
  ghost predicate NoAhead(h: Heap, s: int) {
    forall x {:trigger x in h.status} :: x in h.status && h.status[x].Placed? && h.status[x].seg == s ==>
      !h.status[x].prot.Ahead?
  }

  lemma DeleteKeeps(h: Heap, s: int, u: nat)
    requires Core(h) && 0 <= s < h.tail.seg && s <= h.head.seg && NoAhead(h, s)
    ensures var h' := Delete(h, s); Core(h') && Guarantee(h, h', u) && IsDeleted(h', s)
  {
    var h' := Delete(h, s);
    forall n: nat | n < |h'.segs| ensures SegOk(h', n) {
      assert SegOk(h, n);
    }
    forall n: nat, i: nat ensures SlotAt(h', n, i) == SlotAt(h, n, i) {}
    forall n: nat ensures SegStep(h, h', n) {}
    ProtectedAt(h);
    FrameKeeps(h, h', u);
  }

  /** No item that is safe is in segment `s`. */
  ghost predicate NoSafe(h: Heap, s: int) {
    forall x {:trigger x in h.status} :: x in h.status && h.status[x].Placed? && h.status[x].seg == s ==>
      h.status[x].prot.Unsure?
  }

  lemma AdvanceHeadKeeps(h: Heap, u: nat)
    requires Core(h) && h.head.seg < h.tail.seg && IsDeleted(h, h.head.seg) && NoSafe(h, h.head.seg)
    ensures var h' := h.(head := Ptr(h.head.seg + 1, h.head.aba + 1)); Core(h') && Guarantee(h, h', u)
  {
    var h' := h.(head := Ptr(h.head.seg + 1, h.head.aba + 1));
    forall n: nat | n < |h'.segs| ensures SegOk(h', n) {
      assert SegOk(h, n);
    }
    forall s: nat, i: nat ensures SlotAt(h', s, i) == SlotAt(h, s, i) {}
    forall n: nat ensures SegStep(h, h', n) {}
    ProtectedAt(h);
    FrameKeeps(h, h', u);
  }

  // ------------------------------------------------------------------ callers

  lemma NewItemKeeps(h: Heap, x: int, u: nat)
    requires Core(h) && x !in h.owner
    ensures var h' := h.(owner := h.owner[x := u]); Core(h') && Guarantee(h, h', u) && x !in h.status && x !in h.done
  {
    var h' := h.(owner := h.owner[x := u]);
    SameShape(h, h');
    AtItem(h, x);
    forall y ensures ItemOk(h', y) {
      AtItem(h, y);
    }
    forall s: nat, i: nat ensures SlotOk(h', s, i) {
      AtSlot(h, s, i);
    }
    forall y | y in h.owner && h.owner[y] != u ensures OwnStep(h, h', y) {}
    forall y ensures ProtStep(h, h', y) {}
    forall n: nat ensures SegStep(h, h', n) {}
  }

  lemma DoneKeeps(h: Heap, x: int, u: nat)
    requires Core(h) && x in h.owner && h.owner[x] == u && Safe(h, x)
    ensures var h' := h.(done := h.done + {x}); Core(h') && Guarantee(h, h', u)
  {
    var h' := h.(done := h.done + {x});
    SameShape(h, h');
    forall y ensures ItemOk(h', y) {
      AtItem(h, y);
    }
    forall s: nat, i: nat ensures SlotOk(h', s, i) {
      AtSlot(h, s, i);
    }
    forall y | y in h.owner && h.owner[y] != u ensures OwnStep(h, h', y) {}
    forall y ensures ProtStep(h, h', y) {}
    forall n: nat ensures SegStep(h, h', n) {}
  }

  lemma NothingKeeps(h: Heap, u: nat)
    requires Core(h)
    ensures Guarantee(h, h, u)
  {
    forall y ensures OwnStep(h, h, y) {}
    forall y ensures ProtStep(h, h, y) {}
    forall n: nat ensures SegStep(h, h, n) {}
  }
}
