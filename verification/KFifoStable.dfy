/** What a thread of the k-FIFO queue knows survives the steps of the other threads. */
module KFifoStable {
  import opened Segments
  import opened KFifoModel
  import opened KFifoInvariant

  lemma StableHead(h: Heap, h': Heap, t: nat, p: Ptr)
    requires Rely(h, h', t) && WasHead(h, p)
    ensures WasHead(h', p)
    ensures h'.head == p ==> h.head == p
  {
  }

  lemma StableTail(h: Heap, h': Heap, t: nat, p: Ptr)
    requires Rely(h, h', t) && WasTail(h, p)
    ensures WasTail(h', p)
  {
  }

  lemma StablePassed(h: Heap, h': Heap, t: nat, p: Ptr, seen: set<nat>, x: int)
    requires Rely(h, h', t) && WasHead(h, p) && Passed(h, p, seen, x)
    ensures Passed(h', p, seen, x)
  {
    assert ProtStep(h, h', x);
  }

  lemma StableScanned(h: Heap, h': Heap, t: nat, p: Ptr, seen: set<nat>)
    requires Rely(h, h', t) && Scanned(h, p, seen)
    ensures Scanned(h', p, seen)
  {
    StableHead(h, h', t, p);
    forall x ensures Passed(h', p, seen, x) {
      StablePassed(h, h', t, p, seen, x);
    }
  }

  lemma StableOutside(h: Heap, h': Heap, t: nat, l: Local)
    requires Rely(h, h', t) && Outside(h, t, l)
    ensures Outside(h', t, l)
  {
    assert OwnStep(h, h', l.item);
  }

  lemma StableInside(h: Heap, h': Heap, t: nat, l: Local, prots: set<Prot>)
    requires Rely(h, h', t) && Inside(h, t, l, prots)
    ensures Inside(h', t, l, prots)
  {
    StableTail(h, h', t, l.tailOld);
    assert OwnStep(h, h', l.item);
  }

  lemma StableDeleted(h: Heap, h': Heap, t: nat, s: int)
    requires Rely(h, h', t) && IsDeleted(h, s)
    ensures IsDeleted(h', s)
  {
    assert SegStep(h, h', s);
  }

  lemma StableDequeue(h: Heap, h': Heap, t: nat, l: Local)
    requires Rely(h, h', t) && DequeueInv(h, t, l)
    ensures DequeueInv(h', t, l)
  {
    if l.pc.DqScan? || l.pc.DqReadTail? || l.pc.DqCheckHead? {
      StableScanned(h, h', t, l.headOld, l.seen);
    }
  }

  lemma StableEnqueue(h: Heap, h': Heap, t: nat, l: Local)
    requires Rely(h, h', t) && EnqueueInv(h, t, l)
    ensures EnqueueInv(h', t, l)
  {
    StableOutside(h, h', t, l);
  }

  lemma StableCommitted(h: Heap, h': Heap, t: nat, l: Local)
    requires Rely(h, h', t) && CommittedInv(h, t, l)
    ensures CommittedInv(h', t, l)
  {
    if l.pc.CmReadDeleted? {
      StableInside(h, h', t, l, if l.headCurrent.seg < l.tailOld.seg then {Ahead} else {Unsure});
      if l.headCurrent.seg > l.tailOld.seg { StableDeleted(h, h', t, l.tailOld.seg); }
    } else if l.pc.CmReadDeleted2? {
      StableInside(h, h', t, l, {Ahead});
    } else {
      StableInside(h, h', t, l, {Unsure});
    }
  }

  lemma StableTailContext(h: Heap, h': Heap, t: nat, l: Local)
    requires Rely(h, h', t) && TailContext(h, t, l)
    ensures TailContext(h', t, l)
  {
    if l.enqueue { StableOutside(h, h', t, l); }
  }

  lemma StableAdvanceTail(h: Heap, h': Heap, t: nat, l: Local)
    requires Rely(h, h', t) && AdvanceTailInv(h, t, l)
    ensures AdvanceTailInv(h', t, l)
  {
    StableTailContext(h, h', t, l);
  }

  lemma StableAdvanceHead(h: Heap, h': Heap, t: nat, l: Local)
    requires Rely(h, h', t) && AdvanceHeadInv(h, t, l)
    ensures AdvanceHeadInv(h', t, l)
  {
    StableScanned(h, h', t, l.headOld, l.seen);
    if l.pc.AHCasHead? { StableDeleted(h, h', t, l.headOld.seg); }
  }

  lemma StableReturning(h: Heap, h': Heap, t: nat, l: Local)
    requires Rely(h, h', t) && Returning(h, t, l)
    ensures Returning(h', t, l)
  {
    if l.enqueue {
      assert OwnStep(h, h', l.item);
    } else if l.result.TrueValue? {
      var j :| 0 <= j < |h.log| && h.log[j] == Removal(t, l.op, l.result.value);
      assert h'.log[j] == h.log[j];
    }
  }

  lemma Stable(h: Heap, h': Heap, t: nat, l: Local)
    requires Rely(h, h', t) && LocalInv(h, t, l)
    ensures LocalInv(h', t, l) == true
  {
    hide Rely, DequeueInv, EnqueueInv, CommittedInv, AdvanceTailInv, AdvanceHeadInv, Returning;
    if InDequeue(l.pc) { StableDequeue(h, h', t, l); }
    else if InEnqueue(l.pc) { StableEnqueue(h, h', t, l); }
    else if InCommitted(l.pc) { StableCommitted(h, h', t, l); }
    else if InAdvanceTail(l.pc) { StableAdvanceTail(h, h', t, l); }
    else if InAdvanceHead(l.pc) { StableAdvanceHead(h, h', t, l); }
    else if l.pc.Return? { StableReturning(h, h', t, l); }
  }
}
