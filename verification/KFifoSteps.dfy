/** Every step of a thread of the k-FIFO queue keeps the invariant and leads to what the thread knows
    at its next program counter. */
module KFifoSteps {
  import opened Basics
  import opened Segments
  import opened KFifoModel
  import opened KFifoInvariant
  import opened KFifoActions

  ghost predicate StepOk(h: Heap, h': Heap, u: nat, l': Local) {
    Core(h') && Guarantee(h, h', u) && LocalInv(h', u, l')
  }

  // ------------------------------------------------------------------ scanning

  /** A slot read as empty holds no item. */
  lemma PassEmpty(h: Heap, l: Local, index: nat)
    requires Core(h) && Scanned(h, l.headOld, l.seen) && SlotAt(h, l.headOld.seg, index).value == NULL
    ensures Scanned(h, l.headOld, l.seen + {index})
  {
    forall x ensures Passed(h, l.headOld, l.seen + {index}, x) {
      assert Passed(h, l.headOld, l.seen, x);
      AtItem(h, x);
    }
  }

  lemma ScanStart(h: Heap, p: Ptr)
    requires Core(h) && p == h.head
    ensures Scanned(h, p, {})
  {
  }

  /** After k rounds every slot has been passed. */
  lemma ScanEnd(h: Heap, l: Local)
    requires Seen(h, l) && l.i == h.k
    ensures SeenAll(h, l)
  {
    forall i: nat | i < h.k ensures i in l.seen {
      var j := VisitsAll(l.start, h.k, i);
    }
  }

  /** A dequeue that passed all slots of head, and then reads a tail at head, has met the queue without
      a committed item. */
  lemma QuiescentAtTail(h: Heap, l: Local)
    requires Core(h) && Scanned(h, l.headOld, l.seen) && SeenAll(h, l)
    requires h.head == l.headOld && h.tail.seg == l.headOld.seg
    ensures Quiescent(h)
  {
    forall x | x in h.status && h.status[x].Placed? ensures h.status[x].prot.Unsure? {
      AtItem(h, x);
      assert Passed(h, l.headOld, l.seen, x);
    }
  }

  lemma DequeueScanKeeps(h: Heap, u: nat, l: Local, c: Choice)
    requires Core(h) && DequeueInv(h, u, l) && l.pc.DqScan?
    ensures DequeueInv(h, u, StepDequeue(h, u, l, c).1)
  {
    hide Shape, Items, History;
    var index := Visit(l.start, l.i, h.k);
    if SlotAt(h, l.headOld.seg, index).value == NULL {
      PassEmpty(h, l, index);
      var l' := StepDequeue(h, u, l, c).1;
      assert Seen(h, l');
      if l'.i == h.k {
        ScanEnd(h, l');
      }
    }
  }

  lemma DequeueReads(h: Heap, u: nat, l: Local, c: Choice)
    requires Core(h) && DequeueInv(h, u, l) && !l.pc.DqCheckHead? && !l.pc.DqCas?
    ensures var (h', l') := StepDequeue(h, u, l, c); h' == h && DequeueInv(h, u, l') && InDequeue(l'.pc)
  {
    hide Items, History;
    if l.pc.DqReadHead? {
      ScanStart(h, h.head);
    } else if l.pc.DqScan? {
      DequeueScanKeeps(h, u, l, c);
    } else if l.found.None? && h.head == l.headOld && h.tail.seg == l.headOld.seg {
      QuiescentAtTail(h, l);
    }
  }

  lemma DequeueCheckHead(h: Heap, u: nat, l: Local, c: Choice)
    requires Core(h) && DequeueInv(h, u, l) && l.pc.DqCheckHead?
    ensures StepDequeue(h, u, l, c).0 == h && LocalInv(h, u, StepDequeue(h, u, l, c).1) == true
  {
    hide Items, History, EnqueueInv, CommittedInv, Passed, Quiescent;
  }

  lemma DequeueCas(h: Heap, u: nat, l: Local, c: Choice)
    requires Core(h) && DequeueInv(h, u, l) && l.pc.DqCas?
    ensures var (h', l') := StepDequeue(h, u, l, c);
            && Core(h') && Guarantee(h, h', u) && !l'.enqueue
            && (l'.pc.DqReadHead? || (l'.pc.Return? && Returning(h', u, l')))
  {
    NothingKeeps(h, u);
    hide Items, History, Guarantee;
    if SlotAt(h, l.headOld.seg, l.found.value) == l.slotOld {
      TakeItemKeeps(h, l.headOld.seg, l.found.value, l.slotOld, u, l.op);
    }
  }

  lemma DequeueKeeps(h: Heap, u: nat, l: Local, c: Choice)
    requires Core(h) && DequeueInv(h, u, l)
    ensures var (h', l') := StepDequeue(h, u, l, c); StepOk(h, h', u, l') == true
  {
    NothingKeeps(h, u);
    hide Core, Guarantee, Scanned, Returning, StepDequeue, EnqueueInv, CommittedInv, AdvanceTailInv, AdvanceHeadInv;
    if l.pc.DqCheckHead? {
      DequeueCheckHead(h, u, l, c);
    } else if l.pc.DqCas? {
      DequeueCas(h, u, l, c);
    } else {
      DequeueReads(h, u, l, c);
    }
  }

  // ------------------------------------------------------------------ enqueue

  lemma EnqueueReads(h: Heap, u: nat, l: Local, c: Choice)
    requires Core(h) && EnqueueInv(h, u, l) && !l.pc.EqCas?
    ensures StepEnqueue(h, u, l, c).0 == h && LocalInv(h, u, StepEnqueue(h, u, l, c).1) == true
  {
    hide Items, History, DequeueInv, CommittedInv, AdvanceHeadInv, Returning;
  }

  lemma EnqueueCas(h: Heap, u: nat, l: Local, c: Choice)
    requires Core(h) && EnqueueInv(h, u, l) && l.pc.EqCas?
    ensures var (h', l') := StepEnqueue(h, u, l, c);
            && Core(h') && Guarantee(h, h', u)
            && ((l'.pc.EqReadTail? && EnqueueInv(h', u, l')) || (l'.pc.CmCheckSlot? && CommittedInv(h', u, l')))
  {
    NothingKeeps(h, u);
    hide Items, History, Guarantee;
    if SlotAt(h, l.tailOld.seg, l.found.value) == l.slotOld {
      PutItemKeeps(h, l.tailOld.seg, l.found.value, l.newItem, u);
      PutAt(h, l.tailOld.seg, l.found.value, l.newItem, l.tailOld.seg, l.found.value);
    }
  }

  lemma EnqueueKeeps(h: Heap, u: nat, l: Local, c: Choice)
    requires Core(h) && EnqueueInv(h, u, l)
    ensures var (h', l') := StepEnqueue(h, u, l, c); StepOk(h, h', u, l') == true
  {
    NothingKeeps(h, u);
    hide Core, Guarantee, StepEnqueue, EnqueueInv, CommittedInv, DequeueInv, AdvanceTailInv, AdvanceHeadInv;
    if l.pc.EqCas? {
      EnqueueCas(h, u, l, c);
    } else {
      EnqueueReads(h, u, l, c);
    }
  }

  /** The steps of committed that only read. A slot that does not hold the item any more, or a segment
      that was not deleted after head was read behind it: the enqueue is over. */
  lemma CommittedReads(h: Heap, u: nat, l: Local)
    requires Core(h) && CommittedInv(h, u, l)
    requires l.pc.CmCheckSlot? || l.pc.CmReadDeleted? || l.pc.CmReadDeleted2?
    ensures StepCommitted(h, u, l).0 == h && LocalInv(h, u, StepCommitted(h, u, l).1) == true
  {
    hide History, DequeueInv, EnqueueInv, AdvanceTailInv, AdvanceHeadInv;
    AtItem(h, l.item);
  }

  lemma CommittedReadHead(h: Heap, u: nat, l: Local)
    requires Core(h) && CommittedInv(h, u, l) && l.pc.CmReadHead?
    ensures var (h', l') := StepCommitted(h, u, l);
            Core(h') && Guarantee(h, h', u) && CommittedInv(h', u, l') && InCommitted(l'.pc)
  {
    hide Items, History, Guarantee;
    MarkAheadKeeps(h, l.item, l.tailOld.seg, u);
    assert SegOk(h, l.tailOld.seg);
  }

  lemma CommittedCasHead(h: Heap, u: nat, l: Local)
    requires Core(h) && CommittedInv(h, u, l) && l.pc.CmCasHead? && h.head == l.headCurrent
    ensures var (h', l') := StepCommitted(h, u, l);
            Core(h') && Guarantee(h, h', u) && l'.pc.Return? && Returning(h', u, l')
  {
    hide Items, History, Guarantee;
    AnchorKeeps(h, l.item, u);
  }

  lemma CommittedRetract(h: Heap, u: nat, l: Local)
    requires Core(h) && CommittedInv(h, u, l) && l.pc.CmRetract?
    ensures var (h', l') := StepCommitted(h, u, l);
            && Core(h') && Guarantee(h, h', u)
            && ((l'.pc.Return? && Returning(h', u, l')) || (l'.pc.EqReadTail? && EnqueueInv(h', u, l')))
  {
    NothingKeeps(h, u);
    hide History, Guarantee;
    if SlotAt(h, l.tailOld.seg, l.found.value) == l.newItem {
      AtSlot(h, l.tailOld.seg, l.found.value);
      RetractItemKeeps(h, l.tailOld.seg, l.found.value, l.newItem, u);
    }
  }

  lemma CommittedKeeps(h: Heap, u: nat, l: Local)
    requires Core(h) && CommittedInv(h, u, l)
    ensures var (h', l') := StepCommitted(h, u, l); StepOk(h, h', u, l') == true
  {
    NothingKeeps(h, u);
    hide Core, Guarantee, Inside, EnqueueInv, DequeueInv, AdvanceTailInv, AdvanceHeadInv, Returning;
    if l.pc.CmReadHead? {
      CommittedReadHead(h, u, l);
    } else if l.pc.CmCasHead? && h.head == l.headCurrent {
      CommittedCasHead(h, u, l);
    } else if l.pc.CmRetract? {
      CommittedRetract(h, u, l);
    } else if !l.pc.CmCasHead? {
      CommittedReads(h, u, l);
    }
  }

  // ------------------------------------------------------------------ advance_tail and advance_head

  lemma AfterTail(h: Heap, u: nat, l: Local)
    requires TailContext(h, u, l)
    ensures LocalInv(h, u, AfterAdvanceTail(l)) == true
  {
  }

  lemma AdvanceTailReads(h: Heap, u: nat, l: Local)
    requires Core(h) && AdvanceTailInv(h, u, l) && (l.pc.ATReadTail? || l.pc.ATReadNext? || l.pc.ATCheckTail?)
    ensures StepAdvanceTail(h, u, l).0 == h && LocalInv(h, u, StepAdvanceTail(h, u, l).1) == true
  {
    hide Items, History, DequeueInv, EnqueueInv, CommittedInv, AdvanceHeadInv;
    assert WasTail(h, l.tailOld) ==> SegOk(h, l.tailOld.seg);
    AfterTail(h, u, l);
  }

  lemma AdvanceTailWrites(h: Heap, u: nat, l: Local)
    requires Core(h) && AdvanceTailInv(h, u, l) && (l.pc.ATCasTail? || l.pc.ATCasNext? || l.pc.ATCasNewTail?)
    ensures var (h', l') := StepAdvanceTail(h, u, l);
            && Core(h') && Guarantee(h, h', u) && TailContext(h', u, l)
            && (l' == AfterAdvanceTail(l) || (l'.pc.ATCasNewTail? && AdvanceTailInv(h', u, l')))
  {
    NothingKeeps(h, u);
    hide Items, History, Guarantee;
    assert SegOk(h, l.tailOld.seg);
    if l.pc.ATCasTail? && h.tail == l.tailOld {
      AdvanceTailKeeps(h, l.next.aba + 1, u);
    } else if l.pc.ATCasNewTail? && h.tail == l.tailOld {
      AdvanceTailKeeps(h, l.next.aba, u);
    } else if l.pc.ATCasNext? && h.segs[l.tailOld.seg].next == l.next {
      LinkSegmentKeeps(h, u);
    }
  }

  lemma AdvanceTailStepKeeps(h: Heap, u: nat, l: Local)
    requires Core(h) && AdvanceTailInv(h, u, l)
    ensures var (h', l') := StepAdvanceTail(h, u, l); StepOk(h, h', u, l') == true
  {
    NothingKeeps(h, u);
    if l.pc.ATReadTail? || l.pc.ATReadNext? || l.pc.ATCheckTail? {
      AdvanceTailReads(h, u, l);
    } else {
      AdvanceTailWrites(h, u, l);
      AfterTail(StepAdvanceTail(h, u, l).0, u, l);
    }
  }

  lemma AdvanceHeadReads(h: Heap, u: nat, l: Local)
    requires Core(h) && AdvanceHeadInv(h, u, l) && !l.pc.AHCasTail? && !l.pc.AHDelete? && !l.pc.AHCasHead?
    ensures var (h', l') := StepAdvanceHead(h, u, l);
            h' == h && (l'.pc.DqReadHead? || AdvanceHeadInv(h, u, l')) && !l'.enqueue
  {
    hide Items, History, Passed;
    ScannedHead(h, l);
    assert SegOk(h, l.headOld.seg);
    if l.pc.AHReadTailNext? {
      assert SegOk(h, l.tailCurrent.seg);
    }
  }

  lemma ScannedHead(h: Heap, l: Local)
    requires Scanned(h, l.headOld, l.seen)
    ensures WasHead(h, l.headOld)
  {
  }

  lemma AdvanceHeadWrites(h: Heap, u: nat, l: Local)
    requires Core(h) && AdvanceHeadInv(h, u, l) && (l.pc.AHCasTail? || l.pc.AHDelete? || l.pc.AHCasHead?)
    ensures var (h', l') := StepAdvanceHead(h, u, l);
            && Core(h') && Guarantee(h, h', u)
            && (l'.pc.DqReadHead? || AdvanceHeadInv(h', u, l')) && !l'.enqueue
  {
    NothingKeeps(h, u);
    LeavingHolds(h, l);
    ScannedHead(h, l);
    hide Items, History, Guarantee;
    assert SegOk(h, l.headOld.seg);
    if l.pc.AHCasTail? && h.tail == l.tailCurrent {
      AdvanceTailKeeps(h, l.tailCurrent.aba + 1, u);
      SameScan(h, StepAdvanceHead(h, u, l).0, l);
    } else if l.pc.AHDelete? {
      DeleteKeeps(h, l.headOld.seg, u);
      SameScan(h, StepAdvanceHead(h, u, l).0, l);
    } else if l.pc.AHCasHead? && h.head == l.headOld {
      AdvanceHeadKeeps(h, u);
    }
  }

  lemma SameScan(h: Heap, h': Heap, l: Local)
    requires Scanned(h, l.headOld, l.seen) && h'.status == h.status && h'.head == h.head
    ensures Scanned(h', l.headOld, l.seen)
  {
    forall x ensures Passed(h', l.headOld, l.seen, x) {
      assert Passed(h, l.headOld, l.seen, x);
    }
  }

  lemma AdvanceHeadStepKeeps(h: Heap, u: nat, l: Local)
    requires Core(h) && AdvanceHeadInv(h, u, l)
    ensures var (h', l') := StepAdvanceHead(h, u, l); StepOk(h, h', u, l') == true
  {
    NothingKeeps(h, u);
    AdvanceHeadPcs(h, u, l);
    hide Core, Guarantee, StepAdvanceHead;
    if l.pc.AHCasTail? || l.pc.AHDelete? || l.pc.AHCasHead? {
      AdvanceHeadWrites(h, u, l);
    } else {
      AdvanceHeadReads(h, u, l);
    }
  }

  lemma AdvanceHeadPcs(h: Heap, u: nat, l: Local)
    requires InAdvanceHead(l.pc)
    ensures StepAdvanceHead(h, u, l).1.pc.DqReadHead? || InAdvanceHead(StepAdvanceHead(h, u, l).1.pc)
  {
  }

  lemma LeavingHolds(h: Heap, l: Local)
    requires Core(h) && Leaving(h, l)
    ensures NoAhead(h, l.headOld.seg)
    ensures h.head == l.headOld ==> NoSafe(h, l.headOld.seg)
  {
    forall x | x in h.status && h.status[x].Placed? && h.status[x].seg == l.headOld.seg
      ensures !h.status[x].prot.Ahead? && (h.head == l.headOld ==> h.status[x].prot.Unsure?)
    {
      AtItem(h, x);
      assert Passed(h, l.headOld, l.seen, x);
    }
  }

  // ------------------------------------------------------------------ all steps

  lemma CallerKeeps(h: Heap, u: nat, l: Local, c: Choice)
    requires Core(h) && (l.pc.Return? ==> Returning(h, u, l)) && (l.pc.Idle? || l.pc.Return?)
    ensures var (h', l') := StepCaller(h, u, l, c); StepOk(h, h', u, l') == true
  {
    NothingKeeps(h, u);
    hide Items, History, Guarantee;
    if l.pc.Idle? && c.enqueue && c.item != NULL && c.item !in h.owner {
      NewItemKeeps(h, c.item, u);
    } else if l.pc.Return? && l.enqueue {
      DoneKeeps(h, l.item, u);
    }
  }

  lemma ThreadKeeps(h: Heap, u: nat, l: Local, c: Choice)
    requires Core(h) && LocalInv(h, u, l)
    ensures var (h', l') := StepThread(h, u, l, c); StepOk(h, h', u, l') == true
  {
    hide Core, DequeueInv, EnqueueInv, CommittedInv, AdvanceTailInv, AdvanceHeadInv, Returning, StepOk,
         StepDequeue, StepEnqueue, StepCommitted, StepAdvanceTail, StepAdvanceHead, StepCaller;
    if InDequeue(l.pc) { DequeueKeeps(h, u, l, c); }
    else if InEnqueue(l.pc) { EnqueueKeeps(h, u, l, c); }
    else if InCommitted(l.pc) { CommittedKeeps(h, u, l); }
    else if InAdvanceTail(l.pc) { AdvanceTailStepKeeps(h, u, l); }
    else if InAdvanceHead(l.pc) { AdvanceHeadStepKeeps(h, u, l); }
    else { CallerKeeps(h, u, l, c); }
  }
}
