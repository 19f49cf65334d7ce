/** Every step of a thread of the k-stack keeps the invariant and leads to what the thread knows at its
    next program counter. */
module KStackSteps {
  import opened Basics
  import opened Segments
  import opened KStackModel
  import opened KStackInvariant
  import opened KStackActions

  ghost predicate StepOk(h: Heap, h': Heap, u: nat, l': Local) {
    Core(h') && Guarantee(h, h', u) && LocalInv(h', u, l')
  }

  lemma NothingKeeps(h: Heap, u: nat)
    requires Core(h)
    ensures Guarantee(h, h, u)
  {
    forall s: nat, i: nat ensures SlotStep(h, h, s, i) {}
    forall x ensures OwnStep(h, h, x) {}
    forall x ensures SafeStep(h, h, x) {}
    GuaranteeIntro(h, h, u);
  }

  // ------------------------------------------------------------------ pop

  lemma PopReads(h: Heap, u: nat, l: Local, c: Choice)
    requires Core(h) && PopInv(h, u, l) && RemovingAt(h, u, NIL) && !l.pc.PopCas? && !l.pc.PopReadNext?
    ensures StepPop(h, u, l, c).0 == h && LocalInv(h, u, StepPop(h, u, l, c).1) == true
  {
    hide Items, History, PushInv, CommittedInv, EmptyInv, RemoveInv, RemovingAt;
    assert h.live[|h.live| - 1] < |h.segs|;
  }

  lemma PopReadNext(h: Heap, u: nat, l: Local, c: Choice)
    requires Core(h) && PopInv(h, u, l) && RemovingAt(h, u, NIL) && l.pc.PopReadNext?
    ensures StepPop(h, u, l, c).0 == h && LocalInv(h, u, StepPop(h, u, l, c).1) == true
  {
    hide Items, History, PushInv, CommittedInv, RemovingAt;
    if SegAt(h, l.topOld.seg).next == NIL {
      var l' := StepPop(h, u, l, c).1;
      forall i: nat ensures RecordOk(h, l', i) {}
    }
  }

  lemma PopCas(h: Heap, u: nat, l: Local, c: Choice)
    requires Core(h) && PopInv(h, u, l) && RemovingAt(h, u, NIL) && l.pc.PopCas?
    ensures var (h', l') := StepPop(h, u, l, c); StepOk(h, h', u, l') == true
  {
    NothingKeeps(h, u);
    hide Items, History, PushInv, CommittedInv, EmptyInv, RemoveInv, Guarantee;
    if SlotAt(h, l.topCurrent.seg, l.found.value) == l.slotOld {
      TakeItemKeeps(h, l.topCurrent.seg, l.found.value, l.slotOld, u, l.op);
    }
  }

  lemma PopKeeps(h: Heap, u: nat, l: Local, c: Choice)
    requires Core(h) && PopInv(h, u, l) && RemovingAt(h, u, NIL)
    ensures var (h', l') := StepPop(h, u, l, c); StepOk(h, h', u, l') == true
  {
    NothingKeeps(h, u);
    hide Core, LocalInv, Guarantee, PopInv, StepPop;
    if l.pc.PopCas? {
      PopCas(h, u, l, c);
    } else if l.pc.PopReadNext? {
      PopReadNext(h, u, l, c);
    } else {
      PopReads(h, u, l, c);
    }
  }

  // ------------------------------------------------------------------ is_empty

  /** A slot read as empty holds no item. */
  lemma PassEmpty(h: Heap, l: Local, index: nat)
    requires Core(h) && Scanned(h, l.topOld, l.seen) && SlotAt(h, l.topOld.seg, index).value == NULL
    ensures Scanned(h, l.topOld, l.seen + {index})
  {
    forall x ensures Passed(h, l.topOld, l.seen + {index}, x) {
      assert Passed(h, l.topOld, l.seen, x);
      AtItem(h, x);
    }
  }

  /** After k rounds every slot has been passed. */
  lemma PassEnd(h: Heap, l: Local)
    requires Seen(h, l) && l.i == h.k
    ensures SeenAll(h, l)
  {
    forall i: nat | i < h.k ensures i in l.seen {
      var j := VisitsAll(l.start, h.k, i);
    }
  }

  lemma FirstPass(h: Heap, u: nat, l: Local)
    requires Core(h) && EmptyInv(h, u, l) && l.pc.EmptyFirst?
    requires SlotAt(h, l.topOld.seg, Visit(l.start, l.i, h.k)).value == NULL
    ensures EmptyInv(h, u, StepEmpty(h, u, l).1)
  {
    var index := Visit(l.start, l.i, h.k);
    var l' := StepEmpty(h, u, l).1;
    if l.removing { PassEmpty(h, l, index); }
    hide Items, History, Scanned;
    assert SegOk(h, l.topOld.seg);
    forall i: nat ensures RecordOk(h, l', i) {
      assert RecordOk(h, l, i);
    }
    if l.i + 1 == h.k {
      PassEnd(h, l'.(i := h.k));
      forall i: nat ensures SnapOk(h, l', i) {
        assert RecordOk(h, l', i);
      }
    }
  }

  /** Double collect: a slot that is as recorded by the first pass was empty in between. */
  lemma SecondPass(h: Heap, u: nat, l: Local)
    requires Core(h) && EmptyInv(h, u, l) && l.pc.EmptySecond?
    ensures var l' := StepEmpty(h, u, l).1;
            l'.pc.EmptySecond? || l'.pc.RmReadNext2? || l'.pc.PopCheckTop2? ==>
              Verified(h, l') && l' == l.(pc := l'.pc, i := l.i + 1)
  {
    hide Items, History, Scanned;
    var index := Visit(l.start, l.i, h.k);
    assert SnapOk(h, l, index);
  }

  lemma VerifiedAll(h: Heap, l: Local)
    requires Verified(h, l) && l.i == h.k && |l.snap| == h.k
    ensures AllEmpty(l.snap, h.k)
  {
    forall i: nat | i < h.k ensures l.snap[i].value == NULL {
      var j := VisitsAll(l.start, h.k, i);
    }
  }

  lemma EmptyNext(h: Heap, u: nat, l: Local)
    requires Core(h) && EmptyInv(h, u, l)
    ensures StepEmpty(h, u, l).0 == h && PcInv(h, u, StepEmpty(h, u, l).1) == true
  {
    hide Items, History, Scanned, PushInv, CommittedInv;
    var l' := StepEmpty(h, u, l).1;
    if l.pc.EmptyFirst? {
      if SlotAt(h, l.topOld.seg, Visit(l.start, l.i, h.k)).value == NULL {
        FirstPass(h, u, l);
      }
    } else {
      SecondPass(h, u, l);
      if l'.pc.EmptySecond? {
        forall i: nat ensures SnapOk(h, l', i) {
          assert SnapOk(h, l, i);
        }
      } else if l'.pc.PopCheckTop2? {
        VerifiedAll(h, l');
      } else if l'.pc.RmReadNext2? {
        forall i: nat | i < h.k ensures i in l.seen {
          assert SnapOk(h, l, i);
        }
      }
    }
  }

  lemma EmptyKeeps(h: Heap, u: nat, l: Local)
    requires Core(h) && EmptyInv(h, u, l) && RemovingAt(h, u, if l.removing then l.topOld.seg else NIL)
    ensures var (h', l') := StepEmpty(h, u, l); StepOk(h, h', u, l') == true
  {
    NothingKeeps(h, u);
    EmptyNext(h, u, l);
    hide Core, Guarantee, PcInv, RemovingAt, EmptyContext, Verified, Seen, SnapOk, RecordOk;
  }

  // ------------------------------------------------------------------ try_remove_ksegment

  lemma RemoveReads(h: Heap, u: nat, l: Local, c: Choice)
    requires Core(h) && RemoveInv(h, u, l) && !l.pc.RmAdd? && !l.pc.RmSub? && (l.pc.RmCasTop? ==> h.top != l.topOld)
    requires RemovingAt(h, u, if Outstanding(l) then l.topOld.seg else NIL)
    ensures StepRemove(h, u, l, c).0 == h && LocalInv(h, u, StepRemove(h, u, l, c).1) == true
  {
    hide Items, History, PushInv, CommittedInv, EmptyInv, RemovingAt;
    assert h.live[|h.live| - 1] < |h.segs|;
  }

  lemma RemoveAdd(h: Heap, u: nat, l: Local, c: Choice)
    requires Core(h) && RemoveInv(h, u, l) && l.pc.RmAdd? && RemovingAt(h, u, NIL)
    ensures var (h', l') := StepRemove(h, u, l, c); StepOk(h, h', u, l') == true
  {
    var (h', l') := StepRemove(h, u, l, c);
    AddRemoverKeeps(h, l.topOld.seg, u);
    hide Items, History, PushInv, CommittedInv, Guarantee, RemovingAt;
    forall i: nat ensures RecordOk(h', l', i) {}
  }

  lemma RemoveCas(h: Heap, u: nat, l: Local, c: Choice)
    requires Core(h) && RemoveInv(h, u, l) && l.pc.RmCasTop? && h.top == l.topOld && RemovingAt(h, u, l.topOld.seg)
    ensures var (h', l') := StepRemove(h, u, l, c); StepOk(h, h', u, l') == true
  {
    forall x | x in h.status && h.status[x].Placed? && h.status[x].seg == l.topOld.seg ensures !h.status[x].safe {
      AtItem(h, x);
      assert Passed(h, l.topOld, l.seen, x);
    }
    hide Items, History, PushInv, CommittedInv, EmptyInv, Guarantee, RemovingAt;
    RemoveSegmentKeeps(h, l.next, u);
  }

  lemma RemoveSub(h: Heap, u: nat, l: Local, c: Choice)
    requires Core(h) && RemoveInv(h, u, l) && l.pc.RmSub? && RemovingAt(h, u, l.topOld.seg)
    ensures var (h', l') := StepRemove(h, u, l, c); StepOk(h, h', u, l') == true
  {
    hide Items, History, PushInv, CommittedInv, EmptyInv, Guarantee, RemovingAt;
    SubRemoverKeeps(h, l.topOld.seg, u);
  }

  lemma RemoveKeeps(h: Heap, u: nat, l: Local, c: Choice)
    requires Core(h) && RemoveInv(h, u, l) && RemovingAt(h, u, if Outstanding(l) then l.topOld.seg else NIL)
    ensures var (h', l') := StepRemove(h, u, l, c); StepOk(h, h', u, l') == true
  {
    NothingKeeps(h, u);
    hide Core, LocalInv, Guarantee, RemoveInv, RemovingAt, StepRemove;
    if l.pc.RmAdd? {
      RemoveAdd(h, u, l, c);
    } else if l.pc.RmSub? {
      RemoveSub(h, u, l, c);
    } else if l.pc.RmCasTop? && h.top == l.topOld {
      RemoveCas(h, u, l, c);
    } else {
      RemoveReads(h, u, l, c);
    }
  }

  // ------------------------------------------------------------------ push

  lemma PushReads(h: Heap, u: nat, l: Local, c: Choice)
    requires Core(h) && PushInv(h, u, l) && RemovingAt(h, u, NIL) && !l.pc.PushCas? && !l.pc.AddCasTop?
    ensures StepPush(h, u, l, c).0 == h && LocalInv(h, u, StepPush(h, u, l, c).1) == true
  {
    hide Items, History, PopInv, EmptyInv, RemoveInv, CommittedInv, RemovingAt;
    assert h.live[|h.live| - 1] < |h.segs|;
  }

  lemma PushCas(h: Heap, u: nat, l: Local, c: Choice)
    requires Core(h) && PushInv(h, u, l) && l.pc.PushCas?
    ensures var (h', l') := StepPush(h, u, l, c);
            && Core(h') && Guarantee(h, h', u)
            && ((l'.pc.PushReadTop? && h' == h && PushInv(h', u, l')) || (l'.pc.CmCheckSlot? && CommittedInv(h', u, l')))
    ensures forall s {:trigger RemovingAt(h, u, s)} :: RemovingAt(h, u, s) ==> RemovingAt(StepPush(h, u, l, c).0, u, s)
  {
    NothingKeeps(h, u);
    hide Items, History, Guarantee;
    if SlotAt(h, l.topOld.seg, l.found.value) == l.slotOld {
      PutItemKeeps(h, l.topOld.seg, l.found.value, l.newItem, u);
      SlotSet(h, l.topOld.seg, l.found.value, l.newItem, l.topOld.seg, l.found.value);
    }
  }

  lemma AddCas(h: Heap, u: nat, l: Local, c: Choice)
    requires Core(h) && PushInv(h, u, l) && RemovingAt(h, u, NIL) && l.pc.AddCasTop?
    ensures var (h', l') := StepPush(h, u, l, c);
            Core(h') && Guarantee(h, h', u) && l'.pc.PushReadTop? && PushInv(h', u, l') && RemovingAt(h', u, NIL)
  {
    NothingKeeps(h, u);
    hide Items, History, Guarantee, RemovingAt;
    if h.top == l.topOld { AddSegmentKeeps(h, u); }
  }

  lemma PushKeeps(h: Heap, u: nat, l: Local, c: Choice)
    requires Core(h) && PushInv(h, u, l) && RemovingAt(h, u, NIL)
    ensures var (h', l') := StepPush(h, u, l, c); StepOk(h, h', u, l') == true
  {
    NothingKeeps(h, u);
    hide Core, Guarantee, RemovingAt, StepPush, PopInv, EmptyInv, RemoveInv, PushInv, CommittedInv;
    if l.pc.PushCas? {
      PushCas(h, u, l, c);
    } else if l.pc.AddCasTop? {
      AddCas(h, u, l, c);
    } else {
      PushReads(h, u, l, c);
    }
  }

  /** What follows a step of committed. */
  ghost predicate CommittedNext(h: Heap, u: nat, l: Local) {
    || (l.pc.Return? && Returning(h, u, l))
    || (InCommitted(l.pc) && CommittedInv(h, u, l))
    || (l.pc.PushReadTop? && PushInv(h, u, l))
  }

  lemma CommittedNextMeans(h: Heap, u: nat, l: Local)
    requires CommittedNext(h, u, l)
    ensures PcInv(h, u, l) == true && !Outstanding(l)
  {
  }

  /** A slot that does not hold the item any more: the item has been taken. */
  lemma CommittedReads(h: Heap, u: nat, l: Local)
    requires Core(h) && CommittedInv(h, u, l) && (l.pc.CmCheckSlot? || l.pc.CmCheckTop?)
    ensures var (h', l') := StepCommitted(h, u, l);
            h' == h && CommittedNext(h, u, l')
  {
    hide Shape, Items, History;
  }

  lemma CommittedReadRemove(h: Heap, u: nat, l: Local)
    requires Core(h) && CommittedInv(h, u, l) && l.pc.CmReadRemove?
    ensures var (h', l') := StepCommitted(h, u, l);
            Core(h') && Guarantee(h, h', u) && h'.segs == h.segs && CommittedNext(h', u, l')
  {
    NothingKeeps(h, u);
    hide Items, History, Guarantee, LinkOk, SegOk, PushInv, Protect;
    if h.segs[l.topOld.seg].remove == 0 {
      ClearKeeps(h, l.item, u);
    }
  }

  lemma CommittedCasTop(h: Heap, u: nat, l: Local)
    requires Core(h) && CommittedInv(h, u, l) && l.pc.CmCasTop?
    ensures var (h', l') := StepCommitted(h, u, l);
            Core(h') && Guarantee(h, h', u) && h'.segs == h.segs && CommittedNext(h', u, l')
  {
    NothingKeeps(h, u);
    hide Items, History, Guarantee, LinkOk, SegOk, PushInv, Protect;
    if h.top == l.topOld {
      AnchorKeeps(h, l.item, u);
    }
  }

  lemma CommittedRetract(h: Heap, u: nat, l: Local)
    requires Core(h) && CommittedInv(h, u, l) && l.pc.CmRetract?
    ensures var (h', l') := StepCommitted(h, u, l);
            Core(h') && Guarantee(h, h', u) && CommittedNext(h', u, l')
    ensures forall s {:trigger RemovingAt(h, u, s)} :: RemovingAt(h, u, s) ==> RemovingAt(StepCommitted(h, u, l).0, u, s)
  {
    NothingKeeps(h, u);
    hide History, Guarantee;
    if SlotAt(h, l.topOld.seg, l.found.value) == l.newItem {
      AtSlot(h, l.topOld.seg, l.found.value);
      RetractItemKeeps(h, l.topOld.seg, l.found.value, l.newItem, u);
    }
  }

  lemma SameRemoving(h: Heap, h': Heap, u: nat, s: int)
    requires RemovingAt(h, u, s) && h'.segs == h.segs
    ensures RemovingAt(h', u, s)
  {
  }

  lemma CommittedKeeps(h: Heap, u: nat, l: Local)
    requires Core(h) && CommittedInv(h, u, l) && RemovingAt(h, u, NIL) && InCommitted(l.pc)
    ensures var (h', l') := StepCommitted(h, u, l); StepOk(h, h', u, l') == true
  {
    NothingKeeps(h, u);
    hide Core, Guarantee, RemovingAt, StepCommitted, PcInv, Outstanding, CommittedInv, CommittedNext;
    var (h', l') := StepCommitted(h, u, l);
    if l.pc.CmReadRemove? {
      CommittedReadRemove(h, u, l);
      SameRemoving(h, StepCommitted(h, u, l).0, u, NIL);
    } else if l.pc.CmCasTop? {
      CommittedCasTop(h, u, l);
      SameRemoving(h, StepCommitted(h, u, l).0, u, NIL);
    } else if l.pc.CmRetract? {
      CommittedRetract(h, u, l);
    } else {
      CommittedReads(h, u, l);
    }
    CommittedNextMeans(h', u, l');
  }

  // ------------------------------------------------------------------ all steps

  lemma CallerNext(h: Heap, u: nat, l: Local, c: Choice)
    requires Core(h) && (l.pc.Return? ==> Returning(h, u, l)) && (l.pc.Idle? || l.pc.Return?)
    ensures var (h', l') := StepCaller(h, u, l, c);
            && Core(h') && Guarantee(h, h', u) && h'.segs == h.segs
            && (l'.pc.Idle? || (l'.pc.PopReadTop? && PopInv(h', u, l')) || (l'.pc.PushReadTop? && PushInv(h', u, l')))
  {
    NothingKeeps(h, u);
    var h' := StepCaller(h, u, l, c).0;
    hide Shape, History, Guarantee;
    AtItem(h, c.item);
    if h' != h {
      NotDone(h, c.item);
      HistoryKeeps(h, h', u);
    }
  }

  lemma NotDone(h: Heap, x: int)
    requires Core(h)
    ensures x in h.done ==> x in h.status
  {
  }

  lemma CallerKeeps(h: Heap, u: nat, l: Local, c: Choice)
    requires Core(h) && (l.pc.Return? ==> Returning(h, u, l)) && (l.pc.Idle? || l.pc.Return?) && RemovingAt(h, u, NIL)
    ensures var (h', l') := StepCaller(h, u, l, c); StepOk(h, h', u, l') == true
  {
    hide Core, Guarantee, RemovingAt, StepCaller, PopInv, EmptyInv, RemoveInv, PushInv, CommittedInv, Returning;
    CallerNext(h, u, l, c);
    SameRemoving(h, StepCaller(h, u, l, c).0, u, NIL);
  }

  lemma ThreadKeeps(h: Heap, u: nat, l: Local, c: Choice)
    requires Core(h) && LocalInv(h, u, l)
    ensures var (h', l') := StepThread(h, u, l, c); StepOk(h, h', u, l') == true
  {
    hide Core, PopInv, EmptyInv, RemoveInv, PushInv, CommittedInv, Returning, StepOk, RemovingAt,
         StepPop, StepEmpty, StepRemove, StepPush, StepCommitted, StepCaller;
    if InPop(l.pc) { PopKeeps(h, u, l, c); }
    else if InEmpty(l.pc) { EmptyKeeps(h, u, l); }
    else if InRemove(l.pc) { RemoveKeeps(h, u, l, c); }
    else if InPush(l.pc) { PushKeeps(h, u, l, c); }
    else if InCommitted(l.pc) { CommittedKeeps(h, u, l); }
    else { CallerKeeps(h, u, l, c); }
  }
}
