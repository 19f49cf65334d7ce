/** What a thread of the k-stack knows survives the steps of the other threads. */
module KStackStable {
  import opened Basics
  import opened Segments
  import opened KStackModel
  import opened KStackInvariant

  lemma StableRemoving(h: Heap, h': Heap, t: nat, s: int)
    requires Rely(h, h', t) && RemovingAt(h, t, s) && s < |h.segs|
    ensures RemovingAt(h', t, s)
  {
    forall n: nat | n < |h'.segs| ensures Some(t) in h'.segs[n].removers <==> n == s {
      assert SegStep(h, h', t, n);
    }
  }

  lemma StableNext(h: Heap, h': Heap, t: nat, s: int)
    requires Rely(h, h', t) && 0 <= s < |h.segs|
    ensures SegAt(h', s).next == SegAt(h, s).next
  {
    assert SegStep(h, h', t, s);
  }

  lemma StableScanned(h: Heap, h': Heap, t: nat, p: Ptr, seen: set<nat>)
    requires Rely(h, h', t) && WasTop(h, p) && RemovingAt(h, t, p.seg) && Scanned(h, p, seen)
    ensures Scanned(h', p, seen)
  {
    forall x ensures Passed(h', p, seen, x) {
      assert Passed(h, p, seen, x);
      assert SafeStep(h, h', x);
      assert Some(t) in h.segs[p.seg].removers;
    }
  }

  lemma StablePop(h: Heap, h': Heap, t: nat, l: Local)
    requires Rely(h, h', t) && PopInv(h, t, l)
    ensures PopInv(h', t, l)
  {
    if l.pc.PopCheckTop2? { StableNext(h, h', t, l.topOld.seg); }
  }

  lemma StableEmpty(h: Heap, h': Heap, t: nat, l: Local)
    requires Rely(h, h', t) && EmptyInv(h, t, l) && (l.removing ==> RemovingAt(h, t, l.topOld.seg))
    ensures EmptyInv(h', t, l)
  {
    StableNext(h, h', t, l.topOld.seg);
    if l.removing { StableScanned(h, h', t, l.topOld, l.seen); }
    if l.pc.EmptyFirst? {
      forall i: nat ensures RecordOk(h', l, i) {
        assert RecordOk(h, l, i);
        assert SlotStep(h, h', l.topOld.seg, i);
      }
    } else {
      forall i: nat ensures SnapOk(h', l, i) {
        assert SnapOk(h, l, i);
        assert SlotStep(h, h', l.topOld.seg, i);
      }
    }
  }

  lemma StableRemove(h: Heap, h': Heap, t: nat, l: Local)
    requires Rely(h, h', t) && RemoveInv(h, t, l) && (Outstanding(l) ==> RemovingAt(h, t, l.topOld.seg))
    ensures RemoveInv(h', t, l)
  {
    StableNext(h, h', t, l.topOld.seg);
    if l.pc.RmCheckTop? {
      StableNext(h, h', t, l.topCurrent.seg);
    } else if l.pc.RmReadNext2? || l.pc.RmCasTop? {
      StableScanned(h, h', t, l.topOld, l.seen);
    }
  }

  lemma StablePush(h: Heap, h': Heap, t: nat, l: Local)
    requires Rely(h, h', t) && PushInv(h, t, l)
    ensures PushInv(h', t, l)
  {
    assert OwnStep(h, h', l.item);
  }

  lemma StableCommitted(h: Heap, h': Heap, t: nat, l: Local)
    requires Rely(h, h', t) && CommittedInv(h, t, l)
    ensures CommittedInv(h', t, l)
  {
    assert OwnStep(h, h', l.item);
  }

  lemma StableReturning(h: Heap, h': Heap, t: nat, l: Local)
    requires Rely(h, h', t) && Returning(h, t, l)
    ensures Returning(h', t, l)
  {
    if l.push {
      assert OwnStep(h, h', l.item);
    } else if l.result.False? {
      StableNext(h, h', t, l.topOld.seg);
    }
  }

  lemma Bounded(h: Heap, t: nat, l: Local)
    requires PcInv(h, t, l) && Outstanding(l)
    ensures l.topOld.seg < |h.segs|
  {
  }

  lemma Stable(h: Heap, h': Heap, t: nat, l: Local)
    requires Rely(h, h', t) && LocalInv(h, t, l)
    ensures LocalInv(h', t, l) == true
  {
    if Outstanding(l) { Bounded(h, t, l); }
    StableRemoving(h, h', t, if Outstanding(l) then l.topOld.seg else NIL);
    hide Rely, PopInv, EmptyInv, RemoveInv, PushInv, CommittedInv, Returning, RemovingAt;
    if InPop(l.pc) { StablePop(h, h', t, l); }
    else if InEmpty(l.pc) { StableEmpty(h, h', t, l); }
    else if InRemove(l.pc) { StableRemove(h, h', t, l); }
    else if InPush(l.pc) { StablePush(h, h', t, l); }
    else if InCommitted(l.pc) { StableCommitted(h, h', t, l); }
    else if l.pc.Return? { StableReturning(h, h', t, l); }
  }
}
