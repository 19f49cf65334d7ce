/** The phase lemma of the wait-free queue: a helper that saw an operation pending with phase at
    most its own never takes a later operation of that thread for it. */
module WaitFreePhases {
  import opened WaitFreeModel
  import opened WaitFreeInvariant

  /** A helper keeps its target; the others do not start to help except in the loop of help. */
  ghost predicate KeepsTarget(l: Local, l': Local) {
    IsHelping(l') ==> IsHelping(l) && l'.tid == l.tid && l'.seen == l.seen && l'.phase == l.phase
  }

  ghost predicate Planning(l: Local) {
    l.pc.Scan? || l.pc.ReadAba? || l.pc.Publish?
  }

  lemma TargetOfHelpEnqueue(h: Heap, t: nat, l: Local)
    requires InHelpEnqueue(l.pc)
    ensures KeepsTarget(l, StepHelpEnqueue(h, t, l).1) && !Planning(StepHelpEnqueue(h, t, l).1)
    ensures StepHelpEnqueue(h, t, l).0.ops == h.ops
  {
  }

  lemma TargetOfFinishEnqueue(h: Heap, t: nat, l: Local)
    requires InFinishEnqueue(l.pc)
    ensures KeepsTarget(l, StepFinishEnqueue(h, t, l).1) && !Planning(StepFinishEnqueue(h, t, l).1)
    ensures StepFinishEnqueue(h, t, l).0.ops == h.ops
  {
  }

  lemma TargetOfHelpDequeue(h: Heap, t: nat, l: Local)
    requires InHelpDequeue(l.pc)
    ensures KeepsTarget(l, StepHelpDequeue(h, t, l).1) && !Planning(StepHelpDequeue(h, t, l).1)
    ensures StepHelpDequeue(h, t, l).0.ops == h.ops
  {
  }

  lemma TargetOfFinishDequeue(h: Heap, t: nat, l: Local)
    requires InFinishDequeue(l.pc) && (l.ret.ToDeqLoop? || l.ret.ToFinish?)
    ensures KeepsTarget(l, StepFinishDequeue(h, t, l).1) && !Planning(StepFinishDequeue(h, t, l).1)
    ensures StepFinishDequeue(h, t, l).0.ops == h.ops
  {
  }

  lemma TargetOfOuter(h: Heap, t: nat, l: Local, c: Choice)
    requires Sizes(h) && t < |h.slots|
    requires OuterInv(h, t, l)
    ensures var l' := StepOuter(h, t, l, c).1;
            && (IsHelping(l') ==>
                  && l.pc.HelpScan? && l'.tid == l.i < |h.slots| && l'.seen == h.ops[l.i] && l'.phase == l.phase
                  && h.slots[l.i].desc.pending && h.slots[l.i].desc.phase <= l.phase)
            && (l'.pc.Scan? ==> l'.i == 0 || (l.pc.Scan? && l.i < |h.slots| && l'.i == l.i + 1
                                && l'.max >= l.max && l'.max >= h.slots[l.i].desc.phase))
            && (l'.pc.ReadAba? ==> l.pc.Scan? && l.i >= |h.slots| && l'.phase == l.max + 1)
            && (l'.pc.Publish? ==> l.pc.ReadAba? && l'.phase == l.phase)
    ensures !l.pc.Publish? ==> StepOuter(h, t, l, c).0 == h
  {
  }

  /** All that a step does to phases and targets. */
  ghost predicate Moves(h: Heap, h': Heap, t: nat, l: Local, l': Local)
    requires Sizes(h) && Sizes(h') && t < |h.slots| == |h'.slots|
  {
    && (IsHelping(l') ==>
          || (IsHelping(l) && l'.tid == l.tid && l'.seen == l.seen && l'.phase == l.phase)
          || (&& l.pc.HelpScan? && l'.tid == l.i < |h.slots| && l'.seen == h.ops[l.i] && l'.phase == l.phase
              && h.slots[l.i].desc.pending && h.slots[l.i].desc.phase <= l.phase))
    && (l'.pc.Scan? ==> l'.i == 0 || (l.pc.Scan? && l.i < |h.slots| && l'.i == l.i + 1
                        && l'.max >= l.max && l'.max >= h.slots[l.i].desc.phase))
    && (l'.pc.ReadAba? ==> l.pc.Scan? && l.i >= |h.slots| && l'.phase == l.max + 1)
    && (l'.pc.Publish? ==> l.pc.ReadAba? && l'.phase == l.phase)
    && if l.pc.Publish?
       then h'.ops == h.ops[t := h.ops[t] + 1] && h'.slots[t].desc.phase == l.phase && !IsHelping(l')
       else h'.ops == h.ops
  }

  lemma StepMoves(h: Heap, t: nat, l: Local, c: Choice)
    requires Core(h) && t < |h.slots| && LocalInv(h, t, l)
    requires Sizes(StepThread(h, t, l, c).0) && |StepThread(h, t, l, c).0.slots| == |h.slots|
    ensures var (h', l') := StepThread(h, t, l, c); Moves(h, h', t, l, l')
  {
    hide Core;
    if InHelpEnqueue(l.pc) {
      TargetOfHelpEnqueue(h, t, l);
    } else if InFinishEnqueue(l.pc) {
      TargetOfFinishEnqueue(h, t, l);
    } else if InHelpDequeue(l.pc) {
      TargetOfHelpDequeue(h, t, l);
    } else if InFinishDequeue(l.pc) {
      TargetOfFinishDequeue(h, t, l);
    } else {
      TargetOfOuter(h, t, l, c);
    }
  }

  lemma HelperPublished(h: Heap, u: nat, l: Local)
    requires LocalInv(h, u, l) && IsHelping(l)
    ensures Published(h, u, l) && l.tid < |h.slots|
  {
    if InHelpEnqueue(l.pc) {
      HelperPublishedInHelpEnqueue(h, u, l);
    } else if InFinishEnqueue(l.pc) {
      HelperPublishedInFinishEnqueue(h, u, l);
    } else if InHelpDequeue(l.pc) {
      HelperPublishedInHelpDequeue(h, u, l);
    } else {
      HelperPublishedInFinishDequeue(h, u, l);
    }
  }

  lemma HelperPublishedInHelpEnqueue(h: Heap, u: nat, l: Local)
    requires HelpEnqueueInv(h, u, l)
    ensures Published(h, u, l) && l.tid < |h.slots|
  {
  }

  lemma HelperPublishedInFinishEnqueue(h: Heap, u: nat, l: Local)
    requires FinishEnqueueInv(h, u, l)
    ensures Published(h, u, l) && (!l.ret.ToFinish? ==> l.tid < |h.slots|)
  {
  }

  lemma HelperPublishedInHelpDequeue(h: Heap, u: nat, l: Local)
    requires HelpDequeueInv(h, u, l)
    ensures Published(h, u, l) && l.tid < |h.slots|
  {
  }

  lemma HelperPublishedInFinishDequeue(h: Heap, u: nat, l: Local)
    requires FinishDequeueInv(h, u, l)
    ensures Published(h, u, l) && (!l.ret.ToFinish? ==> l.tid < |h.slots|)
  {
  }

  lemma PlanningQuiet(h: Heap, q: nat, l: Local)
    requires LocalInv(h, q, l) && Planning(l)
    ensures Quiet(h, q)
  {
  }

  /** PhaseKnown and ScanCovers for one helper `lu` of thread number `u` and the locals `lq` of the
      thread it helps. */
  ghost predicate PairOk(h: Heap, u: nat, lu: Local, lq: Local) {
    && PhaseKnown(h, lu)
    && (IsHelping(lu) && lu.tid < |h.ops| && h.ops[lu.tid] == lu.seen ==> ScanCovers(lq, u, lu.phase))
  }

  /** A step of thread `t` and a helper that is not `t`. */
  lemma OtherHelper(h: Heap, h': Heap, t: nat, l: Local, l': Local, u: nat, lu: Local, lq: Local)
    requires Rely(h, h') && t < |h.slots| && Moves(h, h', t, l, l') && u < |h.slots|
    requires IsHelping(lu) ==> lu.tid < |h.slots| && Published(h, u, lu)
    requires PairOk(h, u, lu, lq)
    requires lu.tid == t ==> lq == l
    ensures PairOk(h', u, lu, if lu.tid == t then l' else lq)
  {
    if IsHelping(lu) {
      assert SlotStep(h, h', lu.tid);
    }
  }

  /** A step of thread `t` as a helper; `lq` are the locals of its target after the step. */
  lemma OwnHelper(h: Heap, h': Heap, t: nat, l: Local, l': Local, lq: Local)
    requires Rely(h, h') && t < |h.slots| && Moves(h, h', t, l, l')
    requires IsHelping(l') && !l.pc.HelpScan? ==> PairOk(h, t, l, lq)
    requires IsHelping(l') && l.pc.HelpScan? && l'.tid != t ==>
               l'.tid < |h.slots| && (Planning(lq) ==> !h.slots[l'.tid].desc.pending)
    requires IsHelping(l') && l'.tid == t ==> lq == l'
    requires IsHelping(l') ==> l'.tid < |h.slots|
    ensures PairOk(h', t, l', lq)
  {
    if IsHelping(l') {
      assert SlotStep(h, h', l'.tid);
    }
  }
}
