/** Each step of a thread keeps the invariant, stays within what the others rely on, and leaves the
    thread with what it has to know at its next program counter. */
module WaitFreeSteps {
  import opened Basics
  import opened Histories
  import opened WaitFreeModel
  import opened WaitFreeInvariant
  import opened WaitFreeStable
  import opened WaitFreeActions

  lemma RelyReflexive(h: Heap)
    requires Sizes(h)
    ensures Rely(h, h)
  {
    forall n | 0 <= n < |h.nodes| ensures ClaimStep(h, h, n) {}
    forall q | 0 <= q < |h.slots| ensures SlotStep(h, h, q) {}
    assert h.list == h.list[..|h.list|];
  }

  /** The facts about shared memory and phases that a thread may use in a step. */
  ghost predicate Known(h: Heap, t: nat, l: Local) {
    Core(h) && t < |h.slots| && PhaseKnown(h, l)
  }

  // ------------------------------------------------------------------ publication and the loop of help

  // `== true` keeps the verifier from splitting LocalInv into one obligation for every program
  // counter.

  lemma IdleSteps(h: Heap, t: nat, l: Local, c: Choice)
    requires Known(h, t, l) && OuterInv(h, t, l) && (l.pc.Idle? || l.pc.Return?)
    ensures OuterInv(h, t, StepOuter(h, t, l, c).1) == true
  {
  }

  lemma ScanSteps(h: Heap, t: nat, l: Local, c: Choice)
    requires Known(h, t, l) && OuterInv(h, t, l) && (l.pc.Scan? || l.pc.ReadAba?)
    ensures OuterInv(h, t, StepOuter(h, t, l, c).1) == true
  {
  }

  lemma PublishStep(h: Heap, t: nat, l: Local, c: Choice)
    requires HeapInv(h) && Known(h, t, l) && Ready(h, t, l) && l.pc.Publish?
    ensures LocalInv(PublishOp(h, t, l), t, StepOuter(h, t, l, c).1) == true
  {
    hide Claims, ClaimOwner, Dangling, NextOk, HelpEnqueueInv, FinishEnqueueInv, HelpDequeueInv, FinishDequeueInv;
    PublishSlot(h, t, l);
  }

  lemma HelpScanStep(h: Heap, t: nat, l: Local, c: Choice)
    requires Known(h, t, l) && Published(h, t, l) && l.pc.HelpScan?
    ensures LocalInv(h, t, StepOuter(h, t, l, c).1) == true
  {
    hide Claims, ClaimOwner, Dangling, NextOk, NodeOk;
    AtSlot(h, t);
  }

  lemma DeqReadNodeStep(h: Heap, t: nat, l: Local, c: Choice)
    requires Known(h, t, l) && OuterInv(h, t, l) && l.pc.DeqReadNode?
    ensures OuterInv(h, t, StepOuter(h, t, l, c).1) == true
  {
  }

  lemma DeqReadNextStep(h: Heap, t: nat, l: Local, c: Choice)
    requires Known(h, t, l) && OuterInv(h, t, l) && l.pc.DeqReadNext?
    ensures OuterInv(h, t, StepOuter(h, t, l, c).1) == true
  {
    AtSlot(h, t);
    var m := l.newNode.value;
    AtNode(h, m);
    AtList(h, h.nodes[m].pos.value);
  }

  // ------------------------------------------------------------------ help_enqueue

  lemma HelpEnqueuePending(h: Heap, t: nat, l: Local)
    requires Known(h, t, l) && HelpEnqueueInv(h, t, l) && (l.pc.HEPending? || l.pc.HEPhase?)
    ensures LocalInv(h, t, StepHelpEnqueue(h, t, l).1) == true
  {
  }

  lemma HelpEnqueueTail(h: Heap, t: nat, l: Local)
    requires Known(h, t, l) && HelpEnqueueInv(h, t, l)
    requires l.pc.HEReadTail? || l.pc.HEReadNext? || l.pc.HECheckTail?
    ensures LocalInv(h, t, StepHelpEnqueue(h, t, l).1) == true
  {
    if l.pc.HEReadNext? {
      AtList(h, l.tailOld.aba);
    }
  }

  lemma HelpEnqueueAgain(h: Heap, t: nat, l: Local)
    requires Known(h, t, l) && HelpEnqueueInv(h, t, l)
    requires l.pc.HEPending2? || l.pc.HEPhase2? || l.pc.HEReadNode?
    ensures HelpEnqueueInv(h, t, StepHelpEnqueue(h, t, l).1) == true
  {
    AtSlot(h, l.tid);
    if h.slots[l.tid].desc.node.Some? {
      AtNode(h, h.slots[l.tid].desc.node.value);
    }
  }

  lemma HelpEnqueueCas(h: Heap, t: nat, l: Local)
    requires HeapInv(h) && Known(h, t, l) && HelpEnqueueInv(h, t, l) && l.pc.HECas?
    ensures StepHelpEnqueue(h, t, l).0 == h
            || (&& Unlinked(h, l.tid) && |h.list| == h.tail.aba + 1 && h.ops[l.tid] == l.seen
                && StepHelpEnqueue(h, t, l).0 == Linked(h, l.tid))
    ensures LocalInv(StepHelpEnqueue(h, t, l).0, t, StepHelpEnqueue(h, t, l).1) == true
  {
    hide Claims, ClaimOwner, Dangling, LogOk;
    AtList(h, l.tailOld.aba);
    if Deref(h.nodes, l.tailOld.node).next == l.next {
      var h' := Linked(h, l.tid);
      LinkNodes(h, l.tid);
    }
  }

  // ------------------------------------------------------------------ help_finish_enqueue

  /** Return from help_finish_enqueue: if it had to, it has made sure that the thread's own node is
      not beyond tail. */
  lemma FinishEnqueueExit(h: Heap, t: nat, l: Local)
    requires Core(h) && t < |h.slots| && FEContext(h, t, l)
    requires l.ret.ToFinish? || (l.ret.ToHelp? && l.tid == t) ==>
               l.node.Some? && PosAtMost(h, l.node.value, h.tail.aba)
    ensures LocalInv(h, t, AfterFinishEnq(l)) == true
  {
    hide Claims, ClaimOwner, Dangling, NextOk, FinishEnqueueInv, FinishDequeueInv;
    AtSlot(h, t);
    if l.ret.ToFinish? {
      assert Returning(h, t, AfterFinishEnq(l));
    } else if l.ret.ToHelp? {
      assert Published(h, t, AfterFinishEnq(l));
    }
  }

  lemma FinishEnqueueReadTail(h: Heap, t: nat, l: Local)
    requires Known(h, t, l) && FinishEnqueueInv(h, t, l) && l.pc.FEReadTail?
    ensures FinishEnqueueInv(h, t, StepFinishEnqueue(h, t, l).1) == true
  {
    if l.node.Some? {
      AtNode(h, l.node.value);
    }
  }

  lemma FinishEnqueueReadNext(h: Heap, t: nat, l: Local)
    requires Known(h, t, l) && FinishEnqueueInv(h, t, l) && l.pc.FEReadNext?
    ensures LocalInv(h, t, StepFinishEnqueue(h, t, l).1) == true
  {
    if l.node.Some? {
      AtNode(h, l.node.value);
    }
    AtList(h, l.tailOld.aba);
    var next := Deref(h.nodes, l.tailOld.node).next;
    if next.value.None? {
      FinishEnqueueExit(h, t, l.(next := next));
    }
  }

  lemma FinishEnqueueReadState(h: Heap, t: nat, l: Local)
    requires Known(h, t, l) && FinishEnqueueInv(h, t, l) && l.pc.FEReadState?
    ensures FinishEnqueueInv(h, t, StepFinishEnqueue(h, t, l).1) == true
  {
    AtSlot(h, t);
    if l.ftid < |h.slots| { AtSlot(h, l.ftid); }
  }

  lemma FinishEnqueueCheckTail(h: Heap, t: nat, l: Local)
    requires Known(h, t, l) && FEState(h, t, l) && l.pc.FECheckTail?
    ensures LocalInv(h, t, StepFinishEnqueue(h, t, l).1) == true
  {
    if h.tail != l.tailOld {
      FinishEnqueueExit(h, t, l);
    }
  }

  lemma FinishEnqueueCheckNode(h: Heap, t: nat, l: Local)
    requires Known(h, t, l) && FEChecked(h, t, l) && l.pc.FECheckNode?
    ensures LocalInv(h, t, StepFinishEnqueue(h, t, l).1) == true
  {
    if h.slots[l.ftid].desc.node != l.next.value {
      assert h.tail.aba == l.tailOld.aba ==> |h.list| == h.tail.aba + 2;
      assert h.tail.aba > l.tailOld.aba;
      FinishEnqueueExit(h, t, l);
    }
  }

  lemma FinishEnqueueReadPhase(h: Heap, t: nat, l: Local)
    requires Known(h, t, l) && FEChecked(h, t, l) && l.pc.FEReadPhase?
    ensures FinishEnqueueInv(h, t, StepFinishEnqueue(h, t, l).1) == true
  {
  }

  lemma FinishEnqueueCasState(h: Heap, t: nat, l: Local)
    requires Known(h, t, l) && FinishEnqueueInv(h, t, l) && l.pc.FECasState?
    ensures StepFinishEnqueue(h, t, l).0 == h
            || (&& l.ftid < |h.slots| && Replaceable(h, l.ftid, false, l.next.value)
                && StepFinishEnqueue(h, t, l).0 == Replaced(h, l.ftid, false, l.next.value))
    ensures StepFinishEnqueue(h, t, l).0 == h ==> FinishEnqueueInv(h, t, StepFinishEnqueue(h, t, l).1) == true
  {
  }

  lemma FinishEnqueueCasTail(h: Heap, t: nat, l: Local)
    requires Known(h, t, l) && FinishEnqueueInv(h, t, l) && l.pc.FECasTail?
    ensures StepFinishEnqueue(h, t, l).0 == h
            || (&& |h.list| == h.tail.aba + 2 && l.next.value == Some(h.list[h.tail.aba + 1])
                && h.nodes[l.next.value.value].enqTid < |h.slots|
                && !h.slots[h.nodes[l.next.value.value].enqTid].desc.pending
                && StepFinishEnqueue(h, t, l).0 == h.(tail := Ptr(l.next.value.value, h.tail.aba + 1)))
    ensures StepFinishEnqueue(h, t, l).0 == h ==> LocalInv(h, t, StepFinishEnqueue(h, t, l).1) == true
  {
    if h.tail != l.tailOld {
      FinishEnqueueExit(h, t, l);
    }
  }

  // ------------------------------------------------------------------ help_dequeue

  lemma HelpDequeuePending(h: Heap, t: nat, l: Local)
    requires Known(h, t, l) && HelpDequeueInv(h, t, l)
    requires l.pc.HDPending? || l.pc.HDPhase?
    ensures LocalInv(h, t, StepHelpDequeue(h, t, l).1) == true
  {
  }

  lemma HelpDequeueReads(h: Heap, t: nat, l: Local)
    requires Known(h, t, l) && HelpDequeueInv(h, t, l)
    requires l.pc.HDReadHead? || l.pc.HDReadTail?
    ensures HelpDequeueInv(h, t, StepHelpDequeue(h, t, l).1) == true
  {
  }

  /** Reading a NULL next pointer of a node that is still head shows that the queue is empty. */
  lemma HelpDequeueReadNext(h: Heap, t: nat, l: Local)
    requires Known(h, t, l) && HDTail(h, t, l) && l.pc.HDReadNext?
    requires h.head.aba == l.headOld.aba && |h.list| == h.head.aba + 1 && h.ops[l.tid] == l.seen ==> h.sawEmpty[l.tid]
    ensures HelpDequeueInv(h, t, StepHelpDequeue(h, t, l).1) == true
  {
    AtList(h, l.headOld.aba);
  }

  lemma HelpDequeueCheckHead(h: Heap, t: nat, l: Local)
    requires Known(h, t, l) && HDNext(h, t, l) && l.pc.HDCheckHead?
    ensures LocalInv(h, t, StepHelpDequeue(h, t, l).1) == true
  {
    hide Claims, ClaimOwner, Dangling, SlotOk, NextOk, NodeOk, HelpEnqueueInv, FinishDequeueInv, OuterInv;
    assert l.headOld.aba != l.tailOld.aba ==> l.headOld.node != l.tailOld.node;
  }

  lemma HelpDequeueEmptyState(h: Heap, t: nat, l: Local)
    requires Known(h, t, l) && HelpDequeueInv(h, t, l) && l.pc.HDEmptyState?
    ensures HelpDequeueInv(h, t, StepHelpDequeue(h, t, l).1) == true
  {
    AtSlot(h, l.tid);
  }

  lemma HelpDequeueEmptyTail(h: Heap, t: nat, l: Local)
    requires Known(h, t, l) && HelpDequeueInv(h, t, l) && l.pc.HDEmptyTail?
    ensures HelpDequeueInv(h, t, StepHelpDequeue(h, t, l).1) == true
  {
    AtSlot(h, l.tid);
    assert h.tail.node == l.tailOld.node ==> h.tail.aba == l.tailOld.aba;
  }

  lemma HelpDequeueEmptyChecks(h: Heap, t: nat, l: Local)
    requires Known(h, t, l) && HelpDequeueInv(h, t, l)
    requires l.pc.HDEmptyPending? || l.pc.HDEmptyPhase? || l.pc.HDEmptyReadPhase?
    ensures HelpDequeueInv(h, t, StepHelpDequeue(h, t, l).1) == true
  {
    hide Claims, ClaimOwner, Dangling, NextOk, NodeOk;
  }

  lemma HelpDequeueEmptyCas(h: Heap, t: nat, l: Local)
    requires Known(h, t, l) && HelpDequeueInv(h, t, l) && l.pc.HDEmptyCas?
    ensures StepHelpDequeue(h, t, l).0 == h
            || (&& Replaceable(h, l.tid, false, None) && h.ops[l.tid] == l.seen && h.slots[l.tid].desc.pending
                && StepHelpDequeue(h, t, l).0 == Replaced(h, l.tid, false, None))
    ensures StepHelpDequeue(h, t, l).0 == h ==> HelpDequeueInv(h, t, StepHelpDequeue(h, t, l).1) == true
  {
    AtSlot(h, l.tid);
  }

  lemma HelpDequeueState(h: Heap, t: nat, l: Local)
    requires Known(h, t, l) && HelpDequeueInv(h, t, l) && l.pc.HDState?
    ensures HelpDequeueInv(h, t, StepHelpDequeue(h, t, l).1) == true
  {
    AtSlot(h, l.tid);
  }

  lemma HelpDequeuePending2(h: Heap, t: nat, l: Local)
    requires Known(h, t, l) && HelpDequeueInv(h, t, l) && l.pc.HDPending2?
    ensures LocalInv(h, t, StepHelpDequeue(h, t, l).1) == true
  {
    hide Claims, ClaimOwner, Dangling, NextOk, NodeOk, SlotOk, HelpEnqueueInv, FinishEnqueueInv, FinishDequeueInv;
  }

  lemma HelpDequeuePhase2(h: Heap, t: nat, l: Local)
    requires Known(h, t, l) && HelpDequeueInv(h, t, l) && l.pc.HDPhase2?
    ensures LocalInv(h, t, StepHelpDequeue(h, t, l).1) == true
  {
    hide Claims, ClaimOwner, Dangling, NextOk, NodeOk, SlotOk, HelpEnqueueInv, FinishEnqueueInv, FinishDequeueInv;
  }

  lemma MayInstall(h: Heap, t: nat, l: Local)
    requires Known(h, t, l) && HDPendingChecked(h, t, l) && h.head == l.headOld && l.cur.desc.node != Some(l.headOld.node)
    ensures HDInstall(h, t, l.(pc := HDReadPhase))
  {
    hide Claims, Dangling, NextOk;
    AtSlot(h, l.tid);
    assert h.nodes[l.headOld.node].pos == Some(l.headOld.aba);
    if h.slots[l.tid].desc.node.Some? && h.slots[l.tid].desc.kind.Deq? {
      AtNode(h, h.slots[l.tid].desc.node.value);
    }
  }

  lemma MayClaim(h: Heap, t: nat, l: Local)
    requires Known(h, t, l) && HDPendingChecked(h, t, l) && (h.head != l.headOld || l.cur.desc.node == Some(l.headOld.node))
    ensures var l' := l.(pc := HDCasDeqTid); HDNonEmpty(h, t, l') && NamesHead(h, l')
  {
    hide Dangling, NextOk;
    AtSlot(h, l.tid);
    assert h.nodes[l.headOld.node].pos == Some(l.headOld.aba);
    if h.slots[l.tid].desc.node.Some? && h.slots[l.tid].desc.kind.Deq? {
      AtNode(h, h.slots[l.tid].desc.node.value);
    }
  }

  lemma HelpDequeueCheckHead2(h: Heap, t: nat, l: Local)
    requires Known(h, t, l) && HelpDequeueInv(h, t, l) && l.pc.HDCheckHead2?
    ensures HelpDequeueInv(h, t, StepHelpDequeue(h, t, l).1) == true
  {
    hide Known, HDPendingChecked, HDInstall, HDNonEmpty, NamesHead;
    if h.head == l.headOld && l.cur.desc.node != Some(l.headOld.node) {
      MayInstall(h, t, l);
    } else {
      MayClaim(h, t, l);
    }
  }

  lemma HelpDequeueReadPhase(h: Heap, t: nat, l: Local)
    requires Known(h, t, l) && HelpDequeueInv(h, t, l) && l.pc.HDReadPhase?
    ensures HelpDequeueInv(h, t, StepHelpDequeue(h, t, l).1) == true
  {
  }

  lemma HelpDequeueCasState(h: Heap, t: nat, l: Local)
    requires Known(h, t, l) && HelpDequeueInv(h, t, l) && l.pc.HDCasState?
    ensures StepHelpDequeue(h, t, l).0 == h
            || (&& Replaceable(h, l.tid, true, Some(l.headOld.node)) && h.ops[l.tid] == l.seen
                && h.slots[l.tid].desc.kind.Deq? && h.slots[l.tid].desc.pending
                && StepHelpDequeue(h, t, l).0 == Replaced(h, l.tid, true, Some(l.headOld.node)))
    ensures StepHelpDequeue(h, t, l).0 == h ==> HelpDequeueInv(h, t, StepHelpDequeue(h, t, l).1) == true
  {
    AtSlot(h, l.tid);
  }

  lemma HelpDequeueCasDeqTid(h: Heap, t: nat, l: Local)
    requires Known(h, t, l) && HelpDequeueInv(h, t, l) && l.pc.HDCasDeqTid?
    ensures StepHelpDequeue(h, t, l).0 == h
            || (&& h.nodes[h.head.node].deqTid.None? && h.head.aba < h.tail.aba && h.ops[l.tid] == l.seen
                && h.slots[l.tid].desc.kind.Deq? && h.slots[l.tid].desc.pending
                && h.slots[l.tid].desc.node == Some(h.head.node)
                && StepHelpDequeue(h, t, l).0 == ClaimNode(h, h.head.node, l.tid))
    ensures StepHelpDequeue(h, t, l).0 == h ==> LocalInv(h, t, StepHelpDequeue(h, t, l).1) == true
  {
    hide NextOk, NodeOk, ClaimOwner, Dangling, SlotOk;
    assert h.nodes[l.headOld.node].pos == Some(l.headOld.aba);
  }

  // ------------------------------------------------------------------ help_finish_dequeue

  /** Return from help_finish_dequeue: at the end of dequeue it has made sure that the node the
      thread claimed is behind head. */
  lemma FinishDequeueExit(h: Heap, t: nat, l: Local)
    requires Core(h) && t < |h.slots| && FDContext(h, t, l)
    requires l.ret.ToFinish? && h.slots[t].desc.node.Some? ==>
               PosAtMost(h, h.slots[t].desc.node.value, h.head.aba - 1)
    ensures LocalInv(h, t, AfterFinishDeq(l)) == true
  {
  }

  lemma FinishDequeueReadHead(h: Heap, t: nat, l: Local)
    requires Known(h, t, l) && FDContext(h, t, l) && l.pc.FDReadHead?
    ensures FinishDequeueInv(h, t, StepFinishDequeue(h, t, l).1) == true
  {
    AtSlot(h, t);
  }

  lemma FinishDequeueReadNext(h: Heap, t: nat, l: Local)
    requires Known(h, t, l) && FDHead(h, t, l) && l.pc.FDReadNext?
    ensures FinishDequeueInv(h, t, StepFinishDequeue(h, t, l).1) == true
  {
    AtSlot(h, t);
    AtList(h, l.headOld.aba);
  }

  lemma FinishDequeueReadDeqTid(h: Heap, t: nat, l: Local)
    requires Known(h, t, l) && FDNext(h, t, l) && l.pc.FDReadDeqTid?
    ensures LocalInv(h, t, StepFinishDequeue(h, t, l).1) == true
  {
    hide Claims, ClaimOwner, Dangling, NextOk, HelpEnqueueInv, FinishEnqueueInv, HelpDequeueInv, OuterInv;
    AtSlot(h, t);
    if Deref(h.nodes, l.headOld.node).deqTid.None? {
      if l.ret.ToFinish? && h.slots[t].desc.node.Some? {
        AtNode(h, h.slots[t].desc.node.value);
      }
      FinishDequeueExit(h, t, l);
    }
  }

  lemma FinishDequeueReadState(h: Heap, t: nat, l: Local)
    requires Known(h, t, l) && FDTid(h, t, l) && l.pc.FDReadState?
    ensures FinishDequeueInv(h, t, StepFinishDequeue(h, t, l).1) == true
  {
    AtSlot(h, t);
    if l.ftid < |h.slots| { AtSlot(h, l.ftid); }
    assert h.head.aba == l.headOld.aba ==> h.head.node == l.headOld.node;
  }

  lemma FinishDequeueCheckHead(h: Heap, t: nat, l: Local)
    requires Known(h, t, l) && FDState(h, t, l) && l.pc.FDCheckHead?
    ensures LocalInv(h, t, StepFinishDequeue(h, t, l).1) == true
  {
    hide Claims, ClaimOwner, Dangling, SlotOk, NextOk, NodeOk, HelpEnqueueInv, FinishEnqueueInv, HelpDequeueInv, OuterInv;
    if !(h.head == l.headOld && l.next.value.Some?) {
      FinishDequeueExit(h, t, l);
    }
  }

  lemma FinishDequeueReadDesc(h: Heap, t: nat, l: Local)
    requires Known(h, t, l) && FinishDequeueInv(h, t, l) && (l.pc.FDReadPhase? || l.pc.FDReadNode?)
    ensures FinishDequeueInv(h, t, StepFinishDequeue(h, t, l).1) == true
  {
  }

  lemma FinishDequeueCasState(h: Heap, t: nat, l: Local)
    requires Known(h, t, l) && FinishDequeueInv(h, t, l) && l.pc.FDCasState?
    ensures StepFinishDequeue(h, t, l).0 == h
            || (&& l.ftid < |h.slots| && Replaceable(h, l.ftid, false, Some(l.headOld.node))
                && StepFinishDequeue(h, t, l).0 == Replaced(h, l.ftid, false, Some(l.headOld.node)))
    ensures StepFinishDequeue(h, t, l).0 == h ==> FinishDequeueInv(h, t, StepFinishDequeue(h, t, l).1) == true
  {
  }

  lemma FinishDequeueCasHead(h: Heap, t: nat, l: Local)
    requires Known(h, t, l) && FinishDequeueInv(h, t, l) && l.pc.FDCasHead?
    ensures StepFinishDequeue(h, t, l).0 == h
            || (&& h.head.aba + 1 < |h.list| && l.next.value == Some(h.list[h.head.aba + 1])
                && h.nodes[h.head.node].deqTid.Some? && h.nodes[h.head.node].deqTid.value < |h.slots|
                && !h.slots[h.nodes[h.head.node].deqTid.value].desc.pending
                && StepFinishDequeue(h, t, l).0 == h.(head := Ptr(l.next.value.value, h.head.aba + 1)))
    ensures StepFinishDequeue(h, t, l).0 == h ==> LocalInv(h, t, StepFinishDequeue(h, t, l).1) == true
  {
    if h.head != l.headOld {
      FinishDequeueExit(h, t, l);
    }
  }

  // ------------------------------------------------------------------ all steps together

  /** Thread `t` goes from `h` and `l` to `h'` and `l'`. */
  ghost predicate StepOk(h: Heap, h': Heap, t: nat, l': Local) {
    HeapInv(h') && Rely(h, h') && LocalInv(h', t, l')
  }

  lemma OuterReads(h: Heap, t: nat, l: Local, c: Choice)
    requires Known(h, t, l) && OuterInv(h, t, l) && !l.pc.Publish?
    ensures LocalInv(h, t, StepOuter(h, t, l, c).1) == true
  {
    hide Known, Quiet, Scanning, Ready, Published, DeqDone, Returning, StepOuter;
    if l.pc.Idle? || l.pc.Return? {
      IdleSteps(h, t, l, c);
    } else if l.pc.Scan? || l.pc.ReadAba? {
      ScanSteps(h, t, l, c);
    } else if l.pc.HelpScan? {
      HelpScanStep(h, t, l, c);
    } else if l.pc.DeqReadNode? {
      DeqReadNodeStep(h, t, l, c);
    } else {
      DeqReadNextStep(h, t, l, c);
    }
  }

  lemma PublishStepKeeps(h: Heap, t: nat, l: Local, c: Choice)
    requires HeapInv(h) && Known(h, t, l) && Ready(h, t, l) && l.pc.Publish?
    ensures var (h', l') := StepOuter(h, t, l, c); StepOk(h, h', t, l') == true
  {
    hide PublishOp, LocalInv, HeapInv, Rely;
    PublishKeeps(h, t, l);
    PublishStep(h, t, l, c);
  }

  lemma OuterKeeps(h: Heap, t: nat, l: Local, c: Choice)
    requires HeapInv(h) && Known(h, t, l) && OuterInv(h, t, l)
    ensures var (h', l') := StepOuter(h, t, l, c); StepOk(h, h', t, l') == true
  {
    if l.pc.Publish? {
      PublishStepKeeps(h, t, l, c);
    } else {
      RelyReflexive(h);
      OuterReads(h, t, l, c);
    }
  }

  lemma HelpEnqueueKeeps(h: Heap, t: nat, l: Local)
    requires HeapInv(h) && Known(h, t, l) && HelpEnqueueInv(h, t, l)
    ensures var (h', l') := StepHelpEnqueue(h, t, l); StepOk(h, h', t, l') == true
  {
    RelyReflexive(h);
    if l.pc.HEPending? || l.pc.HEPhase? {
      HelpEnqueuePending(h, t, l);
    } else if l.pc.HEReadTail? || l.pc.HEReadNext? || l.pc.HECheckTail? {
      HelpEnqueueTail(h, t, l);
    } else if l.pc.HECas? {
      HelpEnqueueCas(h, t, l);
      if StepHelpEnqueue(h, t, l).0 != h {
        LinkKeeps(h, l.tid);
      }
    } else {
      HelpEnqueueAgain(h, t, l);
    }
  }

  lemma FinishEnqueueCasStateKeeps(h: Heap, t: nat, l: Local)
    requires HeapInv(h) && Known(h, t, l) && FinishEnqueueInv(h, t, l) && l.pc.FECasState?
    ensures var (h', l') := StepFinishEnqueue(h, t, l); StepOk(h, h', t, l') == true
  {
    hide LogOk, Claims, ClaimOwner, Dangling, NextOk, NodeOk, SlotOk;
    RelyReflexive(h);
    FinishEnqueueCasState(h, t, l);
    var h' := StepFinishEnqueue(h, t, l).0;
    if h' != h {
      ReplaceKeeps(h, l.ftid, false, l.next.value);
      StableFENext(h, h', t, l);
      assert FENext(h', t, l.(pc := FECasTail));
    }
  }

  lemma FinishEnqueueCasTailKeeps(h: Heap, t: nat, l: Local)
    requires HeapInv(h) && Known(h, t, l) && FinishEnqueueInv(h, t, l) && l.pc.FECasTail?
    ensures var (h', l') := StepFinishEnqueue(h, t, l); StepOk(h, h', t, l') == true
  {
    RelyReflexive(h);
    FinishEnqueueCasTail(h, t, l);
    var h' := StepFinishEnqueue(h, t, l).0;
    if h' != h {
      AdvanceTailKeeps(h, l.next.value.value);
      StableFENext(h, h', t, l);
      FinishEnqueueExit(h', t, l);
    }
  }

  lemma FinishEnqueueKeeps(h: Heap, t: nat, l: Local)
    requires HeapInv(h) && Known(h, t, l) && FinishEnqueueInv(h, t, l)
    ensures var (h', l') := StepFinishEnqueue(h, t, l); StepOk(h, h', t, l') == true
  {
    RelyReflexive(h);
    hide HeapInv, Known, FEContext, FENext, FEState, FEChecked, HelpEnqueueInv, HelpDequeueInv, FinishDequeueInv, OuterInv, Rely;
    match l.pc
    case FEReadTail => FinishEnqueueReadTail(h, t, l);
    case FEReadNext => FinishEnqueueReadNext(h, t, l);
    case FEReadState => FinishEnqueueReadState(h, t, l);
    case FECheckTail => FinishEnqueueCheckTail(h, t, l);
    case FECheckNode => FinishEnqueueCheckNode(h, t, l);
    case FEReadPhase => FinishEnqueueReadPhase(h, t, l);
    case FECasState => FinishEnqueueCasStateKeeps(h, t, l);
    case FECasTail => FinishEnqueueCasTailKeeps(h, t, l);
  }

  lemma HelpDequeueEmptyCasKeeps(h: Heap, t: nat, l: Local)
    requires HeapInv(h) && Known(h, t, l) && HelpDequeueInv(h, t, l) && l.pc.HDEmptyCas?
    ensures var (h', l') := StepHelpDequeue(h, t, l); StepOk(h, h', t, l') == true
  {
    hide Claims, ClaimOwner, Dangling, NextOk, NodeOk, LogOk, HelpEnqueueInv, FinishEnqueueInv, FinishDequeueInv, OuterInv;
    RelyReflexive(h);
    HelpDequeueEmptyCas(h, t, l);
    var h' := StepHelpDequeue(h, t, l).0;
    if h' != h {
      ReplaceKeeps(h, l.tid, false, None);
      StableHelping(h, h', t, l, Deq);
    }
  }

  lemma HelpDequeueCasStateKeeps(h: Heap, t: nat, l: Local)
    requires HeapInv(h) && Known(h, t, l) && HelpDequeueInv(h, t, l) && l.pc.HDCasState?
    ensures var (h', l') := StepHelpDequeue(h, t, l); StepOk(h, h', t, l') == true
  {
    hide LogOk, Claims, ClaimOwner, Dangling, NextOk, NodeOk, SlotOk;
    RelyReflexive(h);
    HelpDequeueCasState(h, t, l);
    var h' := StepHelpDequeue(h, t, l).0;
    if h' != h {
      ReplaceKeeps(h, l.tid, true, Some(l.headOld.node));
      StableHDTail(h, h', t, l);
      assert NamesHead(h', l);
    }
  }

  lemma HelpingFDContext(h: Heap, h': Heap, t: nat, l: Local)
    requires Interference(h, h', t, l) && Helping(h, t, l, Deq) && l.pc.HDCasDeqTid?
    ensures FinishDequeueInv(h', t, l.(pc := FDReadHead, ret := ToDeqLoop)) == true
  {
    StableHelping(h, h', t, l, Deq);
  }

  lemma HelpDequeueCasDeqTidKeeps(h: Heap, t: nat, l: Local)
    requires HeapInv(h) && Known(h, t, l) && HelpDequeueInv(h, t, l) && l.pc.HDCasDeqTid?
    ensures var (h', l') := StepHelpDequeue(h, t, l); StepOk(h, h', t, l') == true
  {
    RelyReflexive(h);
    HelpDequeueCasDeqTid(h, t, l);
    var h' := StepHelpDequeue(h, t, l).0;
    if h' != h {
      ClaimKeeps(h, l.tid);
      HelpingFDContext(h, h', t, l);
    }
  }

  lemma HelpDequeueReadNextKeeps(h: Heap, t: nat, l: Local)
    requires HeapInv(h) && Known(h, t, l) && HDTail(h, t, l) && l.pc.HDReadNext?
    ensures HelpDequeueInv(h, t, StepHelpDequeue(h, t, l).1) == true
  {
    if h.head.aba == l.headOld.aba && |h.list| == h.head.aba + 1 {
      assert h.nodes[h.head.node].pos == Some(h.head.aba);
      assert Contents(h) == [];
    }
    HelpDequeueReadNext(h, t, l);
  }

  lemma HelpDequeueStartFrame(h: Heap, t: nat, l: Local)
    requires l.pc.HDPending? || l.pc.HDPhase?
    ensures StepHelpDequeue(h, t, l).0 == h
  {
  }

  lemma HelpDequeueReadFrame(h: Heap, t: nat, l: Local)
    requires l.pc.HDReadHead? || l.pc.HDReadTail? || l.pc.HDCheckHead?
    ensures StepHelpDequeue(h, t, l).0 == h
    ensures !l.pc.HDCheckHead? ==> InHelpDequeue(StepHelpDequeue(h, t, l).1.pc)
  {
  }

  lemma HelpDequeueStartKeeps(h: Heap, t: nat, l: Local)
    requires HeapInv(h) && Known(h, t, l) && HelpDequeueInv(h, t, l)
    requires l.pc.HDPending? || l.pc.HDPhase? || l.pc.HDReadHead? || l.pc.HDReadTail? || l.pc.HDReadNext?
             || l.pc.HDCheckHead?
    ensures var (h', l') := StepHelpDequeue(h, t, l); StepOk(h, h', t, l') == true
  {
    RelyReflexive(h);
    hide Core, LogOk, Rely, Known, Helping, HDHead, HDTail, HDNext, StepHelpDequeue;
    if l.pc.HDPending? || l.pc.HDPhase? { HelpDequeueStartFrame(h, t, l); }
    if l.pc.HDReadHead? || l.pc.HDReadTail? || l.pc.HDCheckHead? { HelpDequeueReadFrame(h, t, l); }
    match l.pc
    case HDPending | HDPhase => HelpDequeuePending(h, t, l);
    case HDReadHead | HDReadTail => HelpDequeueReads(h, t, l);
    case HDReadNext => HelpDequeueReadNextKeeps(h, t, l);
    case HDCheckHead => HelpDequeueCheckHead(h, t, l);
  }

  /** The steps of help_dequeue that look at an apparently empty queue only read. */
  lemma HelpDequeueEmptyFrame(h: Heap, t: nat, l: Local)
    requires l.pc.HDEmptyState? || l.pc.HDEmptyTail? || l.pc.HDEmptyPending?
             || l.pc.HDEmptyPhase? || l.pc.HDEmptyReadPhase?
    ensures StepHelpDequeue(h, t, l).0 == h && InHelpDequeue(StepHelpDequeue(h, t, l).1.pc)
  {
  }

  lemma HelpDequeueEmptyKeeps(h: Heap, t: nat, l: Local)
    requires HeapInv(h) && Known(h, t, l) && HelpDequeueInv(h, t, l)
    requires l.pc.HDEmptyState? || l.pc.HDEmptyTail? || l.pc.HDEmptyPending?
             || l.pc.HDEmptyPhase? || l.pc.HDEmptyReadPhase? || l.pc.HDEmptyCas?
    ensures var (h', l') := StepHelpDequeue(h, t, l); StepOk(h, h', t, l') == true
  {
    RelyReflexive(h);
    hide Core, LogOk, Rely, Known, HelpEnqueueInv, FinishEnqueueInv, HelpDequeueInv, FinishDequeueInv, OuterInv, StepHelpDequeue;
    if !l.pc.HDEmptyCas? { HelpDequeueEmptyFrame(h, t, l); }
    match l.pc
    case HDEmptyState => HelpDequeueEmptyState(h, t, l);
    case HDEmptyTail => HelpDequeueEmptyTail(h, t, l);
    case HDEmptyCas => HelpDequeueEmptyCasKeeps(h, t, l);
    case HDEmptyPending | HDEmptyPhase | HDEmptyReadPhase => HelpDequeueEmptyChecks(h, t, l);
  }

  lemma HelpDequeueFullKeeps(h: Heap, t: nat, l: Local)
    requires HeapInv(h) && Known(h, t, l) && HelpDequeueInv(h, t, l)
    requires l.pc.HDState? || l.pc.HDPending2? || l.pc.HDPhase2? || l.pc.HDCheckHead2? || l.pc.HDReadPhase?
             || l.pc.HDCasState? || l.pc.HDCasDeqTid?
    ensures var (h', l') := StepHelpDequeue(h, t, l); StepOk(h, h', t, l') == true
  {
    hide Core, LogOk, Rely, Known, HelpEnqueueInv, FinishEnqueueInv, HelpDequeueInv, FinishDequeueInv, OuterInv, StepHelpDequeue;
    match l.pc
    case HDCasState => HelpDequeueCasStateKeeps(h, t, l);
    case HDCasDeqTid => HelpDequeueCasDeqTidKeeps(h, t, l);
    case _ => HelpDequeueFullReads(h, t, l);
  }

  lemma HelpDequeueFullFrame(h: Heap, t: nat, l: Local)
    requires l.pc.HDState? || l.pc.HDPending2? || l.pc.HDPhase2? || l.pc.HDCheckHead2? || l.pc.HDReadPhase?
    ensures StepHelpDequeue(h, t, l).0 == h
    ensures l.pc.HDState? || l.pc.HDCheckHead2? || l.pc.HDReadPhase? ==> InHelpDequeue(StepHelpDequeue(h, t, l).1.pc)
  {
  }

  lemma HelpDequeueFullReads(h: Heap, t: nat, l: Local)
    requires HeapInv(h) && Known(h, t, l) && HelpDequeueInv(h, t, l)
    requires l.pc.HDState? || l.pc.HDPending2? || l.pc.HDPhase2? || l.pc.HDCheckHead2? || l.pc.HDReadPhase?
    ensures var (h', l') := StepHelpDequeue(h, t, l); StepOk(h, h', t, l') == true
  {
    RelyReflexive(h);
    HelpDequeueFullFrame(h, t, l);
    hide Core, LogOk, Rely, Known, HelpEnqueueInv, FinishEnqueueInv, HelpDequeueInv, FinishDequeueInv, OuterInv, StepHelpDequeue;
    match l.pc
    case HDState => HelpDequeueState(h, t, l);
    case HDPending2 => HelpDequeuePending2(h, t, l);
    case HDPhase2 => HelpDequeuePhase2(h, t, l);
    case HDCheckHead2 => HelpDequeueCheckHead2(h, t, l);
    case HDReadPhase => HelpDequeueReadPhase(h, t, l);
  }

  lemma FinalDescContext(h: Heap, h': Heap, t: nat, l: Local)
    requires Interference(h, h', t, l) && FDChecked(h, t, l) && l.pc.FDCasState?
    requires !h'.slots[l.ftid].desc.pending
    ensures FinishDequeueInv(h', t, l.(pc := FDCasHead)) == true
  {
    StableFDNext(h, h', t, l);
    assert h'.nodes[l.headOld.node].deqTid == Some(l.ftid);
  }

  lemma FinishDequeueCasStateKeeps(h: Heap, t: nat, l: Local)
    requires HeapInv(h) && Known(h, t, l) && FinishDequeueInv(h, t, l) && l.pc.FDCasState?
    ensures var (h', l') := StepFinishDequeue(h, t, l); StepOk(h, h', t, l') == true
  {
    RelyReflexive(h);
    FinishDequeueCasState(h, t, l);
    var h' := StepFinishDequeue(h, t, l).0;
    if h' != h {
      ReplaceKeeps(h, l.ftid, false, Some(l.headOld.node));
      FinalDescContext(h, h', t, l);
    }
  }

  lemma FinishDequeueCasHeadKeeps(h: Heap, t: nat, l: Local)
    requires HeapInv(h) && Known(h, t, l) && FinishDequeueInv(h, t, l) && l.pc.FDCasHead?
    ensures var (h', l') := StepFinishDequeue(h, t, l); StepOk(h, h', t, l') == true
  {
    RelyReflexive(h);
    FinishDequeueCasHead(h, t, l);
    var h' := StepFinishDequeue(h, t, l).0;
    if h' != h {
      AdvanceHeadKeeps(h, l.next.value.value);
      StableFDNext(h, h', t, l);
      FinishDequeueExit(h', t, l);
    }
  }

  lemma FinishDequeueKeeps(h: Heap, t: nat, l: Local)
    requires HeapInv(h) && Known(h, t, l) && FinishDequeueInv(h, t, l)
    ensures var (h', l') := StepFinishDequeue(h, t, l); StepOk(h, h', t, l') == true
  {
    RelyReflexive(h);
    hide HeapInv, Known, FDContext, FDHead, FDNext, FDTid, FDState, FDChecked, HelpEnqueueInv, HelpDequeueInv, FinishEnqueueInv, OuterInv, Rely;
    match l.pc
    case FDReadHead => FinishDequeueReadHead(h, t, l);
    case FDReadNext => FinishDequeueReadNext(h, t, l);
    case FDReadDeqTid => FinishDequeueReadDeqTid(h, t, l);
    case FDReadState => FinishDequeueReadState(h, t, l);
    case FDCheckHead => FinishDequeueCheckHead(h, t, l);
    case FDReadPhase | FDReadNode => FinishDequeueReadDesc(h, t, l);
    case FDCasState => FinishDequeueCasStateKeeps(h, t, l);
    case FDCasHead => FinishDequeueCasHeadKeeps(h, t, l);
  }

  /** Any step of any thread. */
  lemma ThreadKeeps(h: Heap, t: nat, l: Local, c: Choice)
    requires HeapInv(h) && Known(h, t, l) && LocalInv(h, t, l)
    ensures var (h', l') := StepThread(h, t, l, c); StepOk(h, h', t, l') == true
  {
    hide HeapInv, Known, OuterInv, HelpEnqueueInv, FinishEnqueueInv, HelpDequeueInv, FinishDequeueInv, StepOk,
         StepOuter, StepHelpEnqueue, StepFinishEnqueue, StepHelpDequeue, StepFinishDequeue;
    if InHelpEnqueue(l.pc) {
      HelpEnqueueKeeps(h, t, l);
    } else if InFinishEnqueue(l.pc) {
      FinishEnqueueKeeps(h, t, l);
    } else if InFinishDequeue(l.pc) {
      FinishDequeueKeeps(h, t, l);
    } else if !InHelpDequeue(l.pc) {
      OuterKeeps(h, t, l, c);
    } else if l.pc.HDState? || l.pc.HDPending2? || l.pc.HDPhase2? || l.pc.HDCheckHead2? || l.pc.HDReadPhase?
              || l.pc.HDCasState? || l.pc.HDCasDeqTid? {
      HelpDequeueFullKeeps(h, t, l);
    } else if l.pc.HDEmptyState? || l.pc.HDEmptyTail? || l.pc.HDEmptyPending?
              || l.pc.HDEmptyPhase? || l.pc.HDEmptyReadPhase? || l.pc.HDEmptyCas? {
      HelpDequeueEmptyKeeps(h, t, l);
    } else {
      HelpDequeueStartKeeps(h, t, l);
    }
  }
}
