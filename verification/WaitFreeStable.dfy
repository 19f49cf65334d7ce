/** What a thread knows survives the steps of the other threads. */
module WaitFreeStable {
  import opened Basics
  import opened Histories
  import opened WaitFreeModel
  import opened WaitFreeInvariant

  /** Thread `u` keeps its operation while another thread goes from `h` to `h'`. */
  ghost predicate Interference(h: Heap, h': Heap, u: nat, l: Local) {
    && Core(h) && Core(h') && Rely(h, h') && u < |h.slots|
    && h'.ops[u] == h.ops[u]
    && PhaseKnown(h, l)
  }

  lemma StablePublished(h: Heap, h': Heap, u: nat, l: Local)
    requires Interference(h, h', u, l) && Published(h, u, l)
    ensures Published(h', u, l)
  {
    assert SlotStep(h, h', u);
  }

  lemma StableHelping(h: Heap, h': Heap, u: nat, l: Local, k: Kind)
    requires Interference(h, h', u, l) && Helping(h, u, l, k) && IsHelping(l)
    ensures Helping(h', u, l, k)
  {
    StablePublished(h, h', u, l);
    assert SlotStep(h, h', l.tid);
  }

  lemma StableWasAt(h: Heap, h': Heap, p: Ptr, b: nat, b': nat)
    requires Rely(h, h') && WasAt(h, p, b) && b <= b'
    ensures WasAt(h', p, b')
  {
    assert h.list[p.aba] == h'.list[..|h.list|][p.aba];
  }

  lemma StableNextOf(h: Heap, h': Heap, p: Ptr, next: Link)
    requires Rely(h, h') && NextOf(h, p, next)
    ensures NextOf(h', p, next)
  {
    if next.value.Some? {
      assert h.list[p.aba + 1] == h'.list[..|h.list|][p.aba + 1];
    }
  }

  lemma StableQuiet(h: Heap, h': Heap, u: nat, l: Local)
    requires Interference(h, h', u, l) && Quiet(h, u)
    ensures Quiet(h', u)
  {
    assert SlotStep(h, h', u);
  }

  /** A pending enqueue that is still not linked when the list has not grown. */
  lemma StableUnlinked(h: Heap, h': Heap, q: nat)
    requires Core(h) && Core(h') && Rely(h, h') && Unlinked(h, q) && |h'.list| == |h.list|
    ensures h'.ops[q] == h.ops[q] && Unlinked(h', q) && h'.slots[q].desc.node == h.slots[q].desc.node
  {
    var n := h.slots[q].desc.node.value;
    assert SlotStep(h, h', q);
    assert h'.list == h.list;
    AtNode(h', n);
    assert h'.nodes[n].pos.None?;
    AtSlot(h', q);
  }

  lemma StableBehind(h: Heap, h': Heap, m: nat)
    requires Shape(h) && Shape(h') && NodesGrow(h, h')
    requires m < |h.nodes| && h.nodes[m].pos.Some? && h.nodes[m].pos.value + 1 < |h.list|
    ensures Behind(h', m) == Behind(h, m)
  {
    var i := h.nodes[m].pos.value + 1;
    assert h.list[i] == h'.list[..|h.list|][i];
    assert h'.nodes[h.list[i]].data == h.nodes[h.list[i]].data;
  }

  lemma StableReturning(h: Heap, h': Heap, u: nat, l: Local)
    requires Interference(h, h', u, l) && Returning(h, u, l)
    ensures Returning(h', u, l)
  {
    StablePublished(h, h', u, l);
    StableQuiet(h, h', u, l);
    assert SlotStep(h, h', u);
    if l.kind.Deq? && h.slots[u].desc.node.Some? {
      AtSlot(h, u);
      StableBehind(h, h', h.slots[u].desc.node.value);
    }
  }

  lemma StableOuter(h: Heap, h': Heap, u: nat, l: Local)
    requires Interference(h, h', u, l) && OuterInv(h, u, l)
    ensures OuterInv(h', u, l)
  {
    if l.pc.Return? {
      StableReturning(h, h', u, l);
    } else if l.pc.HelpScan? {
      StablePublished(h, h', u, l);
    } else {
      StableQuiet(h, h', u, l);
      assert SlotStep(h, h', u);
      if l.pc.DeqReadNode? || l.pc.DeqReadNext? {
        StablePublished(h, h', u, l);
      }
    }
  }

  lemma StableHelpEnqueue(h: Heap, h': Heap, u: nat, l: Local)
    requires Interference(h, h', u, l) && HelpEnqueueInv(h, u, l)
    ensures HelpEnqueueInv(h', u, l)
  {
    StableHelping(h, h', u, l, Enq);
    assert SlotStep(h, h', l.tid);
    if !l.pc.HEPending? && !l.pc.HEPhase? && !l.pc.HEReadTail? {
      StableWasAt(h, h', l.tailOld, h.tail.aba, h'.tail.aba);
    }
    if (l.pc.HEPhase2? || l.pc.HEReadNode? || l.pc.HECas?) && |h'.list| == l.tailOld.aba + 1
       && Unlinked(h, l.tid) {
      StableUnlinked(h, h', l.tid);
    }
  }

  // ------------------------------------------------------------------ help_finish_enqueue

  lemma StableFinishContext(h: Heap, h': Heap, u: nat, l: Local)
    requires Interference(h, h', u, l) && FinishContext(h, u, l)
    requires InFinishEnqueue(l.pc) || InFinishDequeue(l.pc)
    ensures FinishContext(h', u, l)
  {
    StablePublished(h, h', u, l);
    if l.ret.ToEnqLoop? {
      StableHelping(h, h', u, l, Enq);
    } else if l.ret.ToDeqLoop? {
      StableHelping(h, h', u, l, Deq);
    }
  }

  lemma StableFENext(h: Heap, h': Heap, u: nat, l: Local)
    requires Interference(h, h', u, l) && FENext(h, u, l) && InFinishEnqueue(l.pc)
    ensures FENext(h', u, l)
  {
    StableFinishContext(h, h', u, l);
    StableWasAt(h, h', l.tailOld, h.tail.aba, h'.tail.aba);
    StableNextOf(h, h', l.tailOld, l.next);
  }

  /** The enqueue whose node is beyond tail stays the same, and stays final once it is. */
  lemma StableDangling(h: Heap, h': Heap)
    requires Core(h) && Core(h') && Rely(h, h')
    requires |h.list| == h.tail.aba + 2 && h'.tail.aba == h.tail.aba
    ensures var q := h.nodes[h.list[h.tail.aba + 1]].enqTid;
            && q < |h.slots|
            && h'.ops[q] == h.ops[q]
            && (h'.slots[q] == h.slots[q] || !h'.slots[q].desc.pending)
            && (!h.slots[q].desc.pending ==> !h'.slots[q].desc.pending)
  {
    var n := h.list[h.tail.aba + 1];
    var q := h.nodes[n].enqTid;
    assert h.nodes[n].pos == Some(h.tail.aba + 1);
    assert !Quiet(h, q);
    assert SlotStep(h, h', q);
    AtSlot(h', q);
    AtSlot(h, q);
  }

  lemma StableFEState(h: Heap, h': Heap, u: nat, l: Local)
    requires Interference(h, h', u, l) && FENext(h, u, l) && InFinishEnqueue(l.pc)
    ensures FEState(h, u, l) ==> FEState(h', u, l)
    ensures FEChecked(h, u, l) ==> FEChecked(h', u, l)
    ensures FEChecked(h, u, l) && PhaseRead(h, l.ftid, l) ==> PhaseRead(h', l.ftid, l)
    ensures (h.tail.aba > l.tailOld.aba || (l.ftid < |h.slots| && !h.slots[l.ftid].desc.pending)) ==>
              (h'.tail.aba > l.tailOld.aba || (l.ftid < |h.slots| && !h'.slots[l.ftid].desc.pending))
  {
    StableFENext(h, h', u, l);
    StableStillSeen(h, h', l);
    if h'.tail.aba == l.tailOld.aba {
      assert |h.list| == h.tail.aba + 2;
      StableDangling(h, h');
    }
  }

  lemma StableFinishEnqueue(h: Heap, h': Heap, u: nat, l: Local)
    requires Interference(h, h', u, l) && FinishEnqueueInv(h, u, l)
    ensures FinishEnqueueInv(h', u, l)
  {
    if l.pc.FEReadTail? {
      StableFinishContext(h, h', u, l);
    } else if l.pc.FEReadNext? {
      StableFinishContext(h, h', u, l);
      StableWasAt(h, h', l.tailOld, h.tail.aba, h'.tail.aba);
    } else {
      StableFENext(h, h', u, l);
      StableFEState(h, h', u, l);
    }
  }

  // ------------------------------------------------------------------ help_dequeue

  lemma StableNamesBehind(h: Heap, h': Heap, l: Local)
    requires Core(h) && Core(h') && Rely(h, h') && l.cur.desc.id < h.nextDesc
    requires NamesBehindIfCurrent(h, l)
    ensures NamesBehindIfCurrent(h', l)
  {
    assert l.tid < |h.slots| ==> SlotStep(h, h', l.tid);
  }

  lemma StableStillSeen(h: Heap, h': Heap, l: Local)
    requires Rely(h, h')
    ensures StillPending(h, l) && l.cur.desc.id < h.nextDesc ==> StillPending(h', l)
    ensures StillSeen(h, l) && l.cur.desc.id < h.nextDesc ==> StillSeen(h', l)
    ensures PhaseRead(h, l.tid, l) && l.cur.desc.id < h.nextDesc ==> PhaseRead(h', l.tid, l)
    ensures PhaseRead(h, l.ftid, l) && l.cur.desc.id < h.nextDesc ==> PhaseRead(h', l.ftid, l)
  {
    assert l.tid < |h.slots| ==> SlotStep(h, h', l.tid);
    assert l.ftid < |h.slots| ==> SlotStep(h, h', l.ftid);
  }

  /** A pending dequeue that names the unclaimed head. */
  lemma StableNaming(h: Heap, h': Heap, q: nat, x: nat)
    requires Core(h) && Core(h') && Rely(h, h') && q < |h.slots|
    requires x < |h.nodes| && h.nodes[x].pos.Some? && h'.nodes[x].deqTid.None?
    requires h.slots[q].desc.kind.Deq? && h.slots[q].desc.pending && h.slots[q].desc.node == Some(x)
    ensures h'.ops[q] == h.ops[q]
    ensures h'.slots[q].desc.kind.Deq? && h'.slots[q].desc.pending && h'.slots[q].desc.node == Some(x)
  {
    assert h.nodes[x].deqTid.None?;
    assert SlotStep(h, h', q);
    AtSlot(h', q);
    AtSlot(h, q);
  }

  lemma StableNamesHead(h: Heap, h': Heap, u: nat, l: Local)
    requires Interference(h, h', u, l) && HDNonEmpty(h, u, l) && IsHelping(l)
    ensures NamesHead(h, l) ==> NamesHead(h', l)
    ensures MayNameHead(h, l) ==> MayNameHead(h', l)
  {
    var x := l.headOld.node;
    assert SlotStep(h, h', l.tid);
    assert h.nodes[x].pos.Some?;
    if h'.nodes[x].deqTid.None? {
      assert h.nodes[x].deqTid.None?;
      if h.slots[l.tid].desc.kind.Deq? && h.slots[l.tid].desc.pending && h.slots[l.tid].desc.node == Some(x) {
        StableNaming(h, h', l.tid, x);
      }
    }
  }

  lemma StableHDTail(h: Heap, h': Heap, u: nat, l: Local)
    requires Interference(h, h', u, l) && HDTail(h, u, l) && IsHelping(l)
    ensures HDTail(h', u, l)
  {
    StableHelping(h, h', u, l, Deq);
    StableWasAt(h, h', l.headOld, h.head.aba, h'.head.aba);
    StableWasAt(h, h', l.tailOld, h.tail.aba, h'.tail.aba);
  }

  lemma StableEmptySeen(h: Heap, h': Heap, l: Local)
    requires Rely(h, h') && EmptySeen(h, l) && l.tid < |h.ops| && l.seen <= h.ops[l.tid]
    ensures EmptySeen(h', l)
  {
    assert SlotStep(h, h', l.tid);
  }

  lemma StableFreshClaim(h: Heap, h': Heap, l: Local)
    requires Core(h) && Core(h') && Rely(h, h') && l.cur.desc.id < h.nextDesc
    requires FreshClaim(h, l) && NamesBehindIfCurrent(h, l) && StillSeen(h, l)
    requires WasAt(h, l.headOld, h.head.aba)
    requires l.tid < |h.slots| && h.slots[l.tid] == l.cur ==> l.cur.desc.kind.Deq?
    ensures FreshClaim(h', l)
  {
    assert l.tid < |h.slots| ==> SlotStep(h, h', l.tid);
    assert l.headOld.node < |h.nodes| ==> ClaimStep(h, h', l.headOld.node);
  }

  lemma StableHelpDequeueEmpty(h: Heap, h': Heap, u: nat, l: Local)
    requires Interference(h, h', u, l) && HelpDequeueInv(h, u, l)
    requires l.pc.HDPending? || l.pc.HDPhase? || l.pc.HDReadHead? || l.pc.HDReadTail? || l.pc.HDReadNext?
             || l.pc.HDCheckHead? || l.pc.HDEmptyState? || l.pc.HDEmptyTail? || l.pc.HDEmptyPending?
             || l.pc.HDEmptyPhase? || l.pc.HDEmptyReadPhase? || l.pc.HDEmptyCas?
    ensures HelpDequeueInv(h', u, l)
  {
    StableHelping(h, h', u, l, Deq);
    if l.pc.HDPending? || l.pc.HDPhase? || l.pc.HDReadHead? {
    } else if l.pc.HDReadTail? {
      StableWasAt(h, h', l.headOld, h.head.aba, h'.head.aba);
    } else {
      StableHDTail(h, h', u, l);
      if l.pc.HDReadNext? {
      } else if l.pc.HDCheckHead? {
        StableNextOf(h, h', l.headOld, l.next);
        if EmptySeen(h, l) {
          StableEmptySeen(h, h', l);
        }
      } else {
        StableEmptySeen(h, h', l);
        if !l.pc.HDEmptyState? {
          StableStillSeen(h, h', l);
          if !l.pc.HDEmptyTail? {
            StableNamesBehind(h, h', l);
          }
        }
      }
    }
  }

  lemma StableHelpDequeueFull(h: Heap, h': Heap, u: nat, l: Local)
    requires Interference(h, h', u, l) && HelpDequeueInv(h, u, l)
    requires l.pc.HDState? || l.pc.HDPending2? || l.pc.HDPhase2? || l.pc.HDCheckHead2? || l.pc.HDReadPhase?
             || l.pc.HDCasState? || l.pc.HDCasDeqTid?
    ensures HelpDequeueInv(h', u, l)
  {
    StableHDTail(h, h', u, l);
    StableNamesHead(h, h', u, l);
    if !l.pc.HDState? && !l.pc.HDCasDeqTid? {
      StableStillSeen(h, h', l);
      if l.pc.HDReadPhase? || l.pc.HDCasState? {
        StableNamesBehind(h, h', l);
        StableFreshClaim(h, h', l);
      }
    }
  }

  // ------------------------------------------------------------------ help_finish_dequeue

  /** The dequeue that claimed head stays the same, and stays final once it is. */
  lemma StableClaimant(h: Heap, h': Heap)
    requires Core(h) && Core(h') && Rely(h, h')
    requires h.nodes[h.head.node].deqTid.Some? && h'.head.aba == h.head.aba
    ensures var q := h.nodes[h.head.node].deqTid.value;
            && q < |h.slots|
            && h'.ops[q] == h.ops[q]
            && (h'.slots[q] == h.slots[q] || !h'.slots[q].desc.pending)
            && (!h.slots[q].desc.pending ==> !h'.slots[q].desc.pending)
  {
    var q := h.nodes[h.head.node].deqTid.value;
    assert h.nodes[h.head.node].pos == Some(h.head.aba);
    assert !Quiet(h, q);
    assert SlotStep(h, h', q);
  }

  lemma StableFDNext(h: Heap, h': Heap, u: nat, l: Local)
    requires Interference(h, h', u, l) && InFinishDequeue(l.pc)
    requires FDHead(h, u, l)
    ensures FDHead(h', u, l)
    ensures FDNext(h, u, l) ==> FDNext(h', u, l)
  {
    StableFinishContext(h, h', u, l);
    StableWasAt(h, h', l.headOld, h.head.aba, h'.head.aba);
    assert SlotStep(h, h', u);
    if NextOf(h, l.headOld, l.next) {
      StableNextOf(h, h', l.headOld, l.next);
    }
  }

  lemma StableFinishDequeue(h: Heap, h': Heap, u: nat, l: Local)
    requires Interference(h, h', u, l) && FinishDequeueInv(h, u, l)
    ensures FinishDequeueInv(h', u, l)
  {
    StableFinishContext(h, h', u, l);
    if !l.pc.FDReadHead? {
      StableFDNext(h, h', u, l);
      if !l.pc.FDReadNext? && !l.pc.FDReadDeqTid? {
        assert h'.nodes[l.headOld.node].deqTid == Some(l.ftid);
        if h'.head.aba == l.headOld.aba {
          StableClaimant(h, h');
        }
        StableStillSeen(h, h', l);
        assert l.ftid < |h.slots| ==> SlotStep(h, h', l.ftid);
      }
    }
  }

  /** What a thread knows is stable under the steps of the others. */
  lemma StableHelpDequeue(h: Heap, h': Heap, u: nat, l: Local)
    requires Interference(h, h', u, l) && InHelpDequeue(l.pc) && HelpDequeueInv(h, u, l)
    ensures HelpDequeueInv(h', u, l) == true
  {
    hide Core, Rely, HelpDequeueInv;
    if l.pc.HDState? || l.pc.HDPending2? || l.pc.HDPhase2? || l.pc.HDCheckHead2? || l.pc.HDReadPhase?
       || l.pc.HDCasState? || l.pc.HDCasDeqTid? {
      StableHelpDequeueFull(h, h', u, l);
    } else {
      StableHelpDequeueEmpty(h, h', u, l);
    }
  }

  lemma Stable(h: Heap, h': Heap, u: nat, l: Local)
    requires Interference(h, h', u, l) && LocalInv(h, u, l)
    ensures LocalInv(h', u, l)
  {
    hide Core, Rely, OuterInv, HelpEnqueueInv, FinishEnqueueInv, HelpDequeueInv, FinishDequeueInv, Interference;
    if InHelpEnqueue(l.pc) {
      StableHelpEnqueue(h, h', u, l);
    } else if InFinishEnqueue(l.pc) {
      StableFinishEnqueue(h, h', u, l);
    } else if InHelpDequeue(l.pc) {
      StableHelpDequeue(h, h', u, l);
    } else if InFinishDequeue(l.pc) {
      StableFinishDequeue(h, h', u, l);
    } else {
      StableOuter(h, h', u, l);
    }
  }
}
