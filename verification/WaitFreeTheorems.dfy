/** The promises of the wait-free queue, for every run of any number of threads. */
module WaitFreeTheorems {
  import opened Basics
  import opened Histories
  import opened WaitFreeModel
  import opened WaitFreeInvariant
  import opened WaitFreeStable
  import opened WaitFreeActions
  import opened WaitFreeSteps
  import opened WaitFreePhases

  // ------------------------------------------------------------------ the invariant holds in every run

  lemma InitCore(n: nat)
    ensures Core(InitHeap(n))
  {
    var h := InitHeap(n);
    forall i | 0 <= i < |h.list| ensures NextOk(h, i) {}
    forall m | 0 <= m < |h.nodes| ensures NodeOk(h, m) {}
    assert Shape(h);
    forall q | 0 <= q < |h.slots| ensures SlotOk(h, q) {}
  }

  lemma InitInv(s: State)
    requires Init(s)
    ensures Inv(s)
  {
    InitCore(|s.locals|);
  }

  lemma OtherKeeps(s: State, t: nat, c: Choice, u: nat)
    requires Inv(s) && t < |s.locals| && u < |s.locals| && u != t
    requires Core(Step(s, t, c).heap) && Rely(s.heap, Step(s, t, c).heap)
    ensures LocalInv(Step(s, t, c).heap, u, s.locals[u]) == true
  {
    var h, l := s.heap, s.locals[t];
    StepMoves(h, t, l, c);
    Stable(h, Step(s, t, c).heap, u, s.locals[u]);
  }

  /** A thread that has not published its next operation is not a target for help. */
  lemma NoPlanningTarget(s: State, q: nat)
    requires Inv(s) && q < |s.locals| && Planning(s.locals[q])
    ensures !s.heap.slots[q].desc.pending
  {
    hide Core, LocalInv;
    PlanningQuiet(s.heap, q, s.locals[q]);
  }

  lemma OwnPairKeeps(s: State, t: nat, c: Choice)
    requires Inv(s) && t < |s.locals|
    requires Core(Step(s, t, c).heap) && Rely(s.heap, Step(s, t, c).heap)
    requires LocalInv(Step(s, t, c).heap, t, Step(s, t, c).locals[t])
    ensures var s' := Step(s, t, c); PairOk(s'.heap, t, s'.locals[t], TargetOf(s', t))
  {
    hide Core, LocalInv, StepThread, Published, Moves;
    var h, l := s.heap, s.locals[t];
    var s' := Step(s, t, c);
    var l' := s'.locals[t];
    StepMoves(h, t, l, c);
    if IsHelping(l') {
      HelperPublished(s'.heap, t, l');
      OwnTarget(s, t, s'.heap, l');
      OwnHelper(h, s'.heap, t, l, l', TargetOf(s', t));
    }
  }

  /** What OwnHelper needs to know about the target of thread `t`. */
  lemma OwnTarget(s: State, t: nat, h': Heap, l': Local)
    requires Inv(s) && t < |s.locals| && IsHelping(l') && l'.tid < |s.locals|
    requires Sizes(h') && |h'.slots| == |s.heap.slots| && Moves(s.heap, h', t, s.locals[t], l')
    ensures var lq := s.locals[t := l'][l'.tid];
            && (!s.locals[t].pc.HelpScan? ==> PairOk(s.heap, t, s.locals[t], lq))
            && (s.locals[t].pc.HelpScan? && l'.tid != t && Planning(lq) ==> !s.heap.slots[l'.tid].desc.pending)
  {
    hide Core, LocalInv;
    if s.locals[t].pc.HelpScan? && l'.tid != t && Planning(s.locals[l'.tid]) {
      NoPlanningTarget(s, l'.tid);
    }
  }

  lemma OtherPairKeeps(s: State, t: nat, c: Choice, u: nat)
    requires Inv(s) && t < |s.locals| && u < |s.locals| && u != t
    requires Core(Step(s, t, c).heap) && Rely(s.heap, Step(s, t, c).heap)
    ensures var s' := Step(s, t, c); PairOk(s'.heap, u, s'.locals[u], TargetOf(s', u))
  {
    hide Core, LocalInv, StepThread, Moves;
    var h, l, lu := s.heap, s.locals[t], s.locals[u];
    var s' := Step(s, t, c);
    StepMoves(h, t, l, c);
    if IsHelping(lu) {
      HelperPublished(h, u, lu);
      OtherHelper(h, s'.heap, t, l, s'.locals[t], u, lu, TargetOf(s, u));
    }
  }

  /** The locals of the thread that thread `u` helps. */
  function TargetOf(s: State, u: nat): Local
    requires u < |s.locals|
  {
    if s.locals[u].tid < |s.locals| then s.locals[s.locals[u].tid] else s.locals[u]
  }

  /** Every step of every thread keeps the invariant. */
  lemma StepInv(s: State, t: nat, c: Choice)
    requires Inv(s) && t < |s.locals|
    ensures Inv(Step(s, t, c)) && Rely(s.heap, Step(s, t, c).heap)
  {
    hide Core, LocalInv, StepThread;
    var s' := Step(s, t, c);
    ThreadKeeps(s.heap, t, s.locals[t], c);
    forall u | 0 <= u < |s.locals|
      ensures LocalInv(s'.heap, u, s'.locals[u])
    {
      if u != t {
        OtherKeeps(s, t, c, u);
      }
    }
    forall u | 0 <= u < |s.locals|
      ensures PairOk(s'.heap, u, s'.locals[u], TargetOf(s', u))
    {
      if u == t {
        OwnPairKeeps(s, t, c);
      } else {
        OtherPairKeeps(s, t, c, u);
      }
    }
  }

  lemma {:induction false} RunInv(run: seq<State>, k: nat)
    requires IsRun(run) && k < |run|
    ensures Inv(run[k]) && |run[k].locals| == |run[0].locals|
  {
    if k == 0 {
      InitInv(run[0]);
    } else {
      RunInv(run, k - 1);
      assert Next(run[k - 1], run[k - 1 + 1]);
      var t: nat, c :| t < |run[k - 1].locals| && run[k] == Step(run[k - 1], t, c);
      StepInv(run[k - 1], t, c);
    }
  }

  // ------------------------------------------------------------------ one step of the abstract queue

  /** The log grows by at most one event, of an operation that is pending and had none. */
  ghost predicate LogStep(h: Heap, h': Heap) {
    || h'.log == h.log
    || (&& |h'.log| == |h.log| + 1 && h'.log[..|h.log|] == h.log
        && var e := h'.log[|h.log|];
           && !e.Missed? && e.tid < |h.slots| && e.tid < |h.ops| && e.tid < |h.lin|
           && h.slots[e.tid].desc.pending
           && h.slots[e.tid].desc.kind == (if e.Added? then Enq else Deq)
           && e.op == h.ops[e.tid] && h.lin[e.tid].None?)
  }

  lemma HelpEnqueueLog(h: Heap, t: nat, l: Local)
    requires HeapInv(h) && Known(h, t, l) && HelpEnqueueInv(h, t, l)
    ensures LogStep(h, StepHelpEnqueue(h, t, l).0)
  {
    if l.pc.HECas? {
      HelpEnqueueCas(h, t, l);
      if StepHelpEnqueue(h, t, l).0 != h {
        AtSlot(h, l.tid);
      }
    }
  }

  lemma HelpDequeueLog(h: Heap, t: nat, l: Local)
    requires HeapInv(h) && Known(h, t, l) && HelpDequeueInv(h, t, l)
    ensures LogStep(h, StepHelpDequeue(h, t, l).0)
  {
    hide LogOk, ClaimOwner, Dangling, NextOk, NodeOk;
    if l.pc.HDCasDeqTid? {
      HelpDequeueCasDeqTid(h, t, l);
      if StepHelpDequeue(h, t, l).0 != h {
        ClaimList(h, l.tid);
        AtSlot(h, l.tid);
      }
    }
  }

  /** Steps outside help_enqueue and help_dequeue leave the history alone, except for publication. */
  lemma FinishHistory(h: Heap, t: nat, l: Local)
    ensures InFinishEnqueue(l.pc) ==> var h' := StepFinishEnqueue(h, t, l).0;
              h'.log == h.log && h'.sawEmpty == h.sawEmpty && h'.ops == h.ops
    ensures InFinishDequeue(l.pc) ==> var h' := StepFinishDequeue(h, t, l).0;
              h'.log == h.log && h'.sawEmpty == h.sawEmpty && h'.ops == h.ops
  {
  }

  lemma OuterHistory(h: Heap, t: nat, l: Local, c: Choice)
    ensures StepOuter(h, t, l, c).0.log == h.log
    ensures !l.pc.Publish? ==> StepOuter(h, t, l, c).0 == h
  {
  }

  lemma StepLog(s: State, t: nat, c: Choice)
    requires Inv(s) && t < |s.locals|
    ensures LogStep(s.heap, Step(s, t, c).heap)
  {
    hide Core, HelpEnqueueInv, FinishEnqueueInv, HelpDequeueInv, FinishDequeueInv, OuterInv,
         StepOuter, StepHelpEnqueue, StepFinishEnqueue, StepHelpDequeue, StepFinishDequeue;
    var h, l := s.heap, s.locals[t];
    if InHelpEnqueue(l.pc) {
      HelpEnqueueLog(h, t, l);
    } else if InFinishEnqueue(l.pc) {
      FinishHistory(h, t, l);
    } else if InHelpDequeue(l.pc) {
      HelpDequeueLog(h, t, l);
    } else if InFinishDequeue(l.pc) {
      FinishHistory(h, t, l);
    } else {
      OuterHistory(h, t, l, c);
    }
  }

  /** Linearizability, step by step: the contents change only by appending the value of a pending
      enqueue or by removing the oldest value for a pending dequeue. */
  lemma ContentsStep(s: State, t: nat, c: Choice)
    requires Inv(s) && t < |s.locals|
    ensures var h, h' := s.heap, Step(s, t, c).heap;
            || (h'.log == h.log && Contents(h') == Contents(h))
            || (exists q: nat, v ::
                  && q < |h.slots| && h.slots[q].desc.pending && h.slots[q].desc.kind.Enq?
                  && h'.log == h.log + [Added(q, h.ops[q], v)] && Contents(h') == Contents(h) + [v])
            || (exists q: nat, v ::
                  && q < |h.slots| && h.slots[q].desc.pending && h.slots[q].desc.kind.Deq?
                  && h'.log == h.log + [Removed(q, h.ops[q], v)] && Contents(h) == [v] + Contents(h'))
  {
    hide Core, LocalInv, StepThread;
    var h, h' := s.heap, Step(s, t, c).heap;
    StepInv(s, t, c);
    StepLog(s, t, c);
    if h'.log != h.log {
      var e := h'.log[|h.log|];
      QueueAppend(h.log, e);
      assert h'.log == h.log + [e];
      if e.Added? {
        assert h'.log == h.log + [Added(e.tid, h.ops[e.tid], e.value)];
      } else {
        assert h'.log == h.log + [Removed(e.tid, h.ops[e.tid], e.value)];
        assert Contents(h) == [e.value] + Contents(h');
      }
    }
  }

  /** At every instant the log is a legal history of a FIFO queue that ends in the present contents. */
  lemma Linearizable(run: seq<State>, k: nat)
    requires IsRun(run) && k < |run|
    ensures ReplayQueue(run[k].heap.log) == Some(Contents(run[k].heap))
  {
    hide Shape, Claims, ClaimOwner, Dangling, SlotOk, LocalInv;
    RunInv(run, k);
  }

  // ------------------------------------------------------------------ returns

  /** An enqueue returns only after its value has been appended, by exactly one event of exactly
      this operation; its node is in the list exactly once and not beyond tail. */
  lemma EnqueueReturns(run: seq<State>, k: nat, t: nat)
    requires IsRun(run) && k < |run| && t < |run[k].locals|
    requires run[k].locals[t].pc.Return? && run[k].locals[t].kind.Enq?
    ensures var h, l := run[k].heap, run[k].locals[t];
            && t < |h.ops| && l.result.True?
            && OneEvent(h.log, Added(t, h.ops[t], l.item))
            && (exists i: nat :: i <= h.tail.aba && i < |h.list| && h.list[i] < |h.nodes|
                  && h.nodes[h.list[i]].data == l.item && l.node == Some(h.list[i])
                  && forall j :: 0 <= j < |h.list| && j != i ==> h.list[j] != h.list[i])
  {
    RunInv(run, k);
    hide Claims, ClaimOwner, Dangling, LogOk, SlotOk, NextOk, OneEvent, Returning;
    var h, l := run[k].heap, run[k].locals[t];
    ReturnFacts(h, t, l);
    OperationEvent(h, t);
    var i := h.nodes[l.node.value].pos.value;
    AtNode(h, l.node.value);
    assert h.list[i] == l.node.value;
  }

  lemma ReturnFacts(h: Heap, t: nat, l: Local)
    requires HeapInv(h) && t < |h.slots| && LocalInv(h, t, l) && l.pc.Return?
    ensures Returning(h, t, l)
    ensures h.slots[t].desc.kind == l.kind
    ensures l.kind.Enq? ==> l.node.Some? && l.node.value < |h.nodes| && h.nodes[l.node.value].pos.Some?
                            && h.nodes[l.node.value].data == l.item && h.lin[t] == Some(l.item)
    ensures l.kind.Deq? ==> (l.result.False? && h.lin[t] == None && h.sawEmpty[t])
                            || (l.result.TrueValue? && h.lin[t] == Some(l.result.value))
  {
    AtSlot(h, t);
  }

  /** The operation of a thread that has linearized has exactly one event. */
  lemma OperationEvent(h: Heap, q: nat)
    requires HeapInv(h) && q < |h.slots| && h.lin[q].Some?
    ensures OneEvent(h.log, EventOf(h, q))
  {
    hide Shape, Claims, ClaimOwner, Dangling, SlotOk, ReplayQueue;
    var k :| 0 <= k < |h.log| && h.log[k] == EventOf(h, q);
    forall i | 0 <= i < |h.log| && i != k && h.log[i].tid == q ensures h.log[i].op != h.ops[q] {
      if i < k { assert h.log[i].tid == h.log[k].tid; } else { assert h.log[k].tid == h.log[i].tid; }
    }
  }

  lemma NoOperationEvent(h: Heap, q: nat)
    requires HeapInv(h) && q < |h.slots| && h.lin[q].None?
    ensures NoEvent(h.log, q, h.ops[q])
  {
  }

  /** A dequeue that returns a value has removed exactly that value, by exactly one event; a dequeue
      that returns false has removed nothing, and the queue was empty at some instant since the
      dequeue was published. */
  lemma DequeueReturns(run: seq<State>, k: nat, t: nat)
    requires IsRun(run) && k < |run| && t < |run[k].locals|
    requires run[k].locals[t].pc.Return? && run[k].locals[t].kind.Deq?
    ensures var h, l := run[k].heap, run[k].locals[t];
            && t < |h.ops| && t < |h.sawEmpty|
            && match l.result
               case TrueValue(v) => OneEvent(h.log, Removed(t, h.ops[t], v))
               case False =>
                 && NoEvent(h.log, t, h.ops[t])
                 && exists i: nat :: i <= k && i < |run| && t < |run[i].heap.ops| && run[i].heap.ops[t] == h.ops[t]
                      && Contents(run[i].heap) == []
               case _ => false
  {
    RunInv(run, k);
    var h, l := run[k].heap, run[k].locals[t];
    ReturnFacts(h, t, l);
    if l.result.False? {
      NoOperationEvent(h, t);
      EmptyInstant(run, k, t);
    } else {
      OperationEvent(h, t);
    }
  }

  lemma InitEmpty(n: nat)
    ensures Contents(InitHeap(n)) == []
  {
  }

  /** What `sawEmpty` records: some instant since the publication of the current operation at which
      the queue was empty. */
  lemma {:induction false} EmptyInstant(run: seq<State>, k: nat, t: nat)
    requires IsRun(run) && k < |run| && t < |run[k].locals|
    requires t < |run[k].heap.sawEmpty| && run[k].heap.sawEmpty[t]
    ensures exists i: nat :: i <= k && t < |run[i].heap.ops| && t < |run[k].heap.ops|
              && run[i].heap.ops[t] == run[k].heap.ops[t] && Contents(run[i].heap) == []
  {
    hide Shape, Claims, ClaimOwner, Dangling, SlotOk, LogOk, LocalInv, StepThread, Contents;
    RunInv(run, k);
    InitEmpty(|run[0].locals|);
    if Contents(run[k].heap) != [] {
      RunInv(run, k - 1);
      assert Next(run[k - 1], run[k - 1 + 1]);
      var u: nat, c :| u < |run[k - 1].locals| && run[k] == Step(run[k - 1], u, c);
      StepEmptyKept(run[k - 1], u, c, t);
      EmptyInstant(run, k - 1, t);
    }
  }

  /** Thread `q` has published operation `op`, its latest, and while it was the latest the queue was empty. */
  ghost predicate WasEmptyFor(run: seq<State>, k: nat, q: nat, op: nat) {
    exists i: nat :: i <= k && i < |run| && q < |run[i].heap.ops| && run[i].heap.ops[q] == op && Contents(run[i].heap) == []
  }

  /** The descriptor of a dequeue that says that the queue was empty, whoever has installed it: the queue was
      empty at an instant since the publication of this operation. */
  lemma InstalledEmpty(run: seq<State>, k: nat, q: nat)
    requires IsRun(run) && k < |run| && q < |run[k].heap.slots|
    requires var d := run[k].heap.slots[q].desc; d.kind.Deq? && !d.pending && d.node.None?
    ensures q < |run[k].heap.ops| && WasEmptyFor(run, k, q, run[k].heap.ops[q])
  {
    hide Shape, Claims, ClaimOwner, Dangling, LogOk, LocalInv, Contents;
    RunInv(run, k);
    AtSlot(run[k].heap, q);
    EmptyInstant(run, k, q);
  }

  predicate PreparesEmpty(pc: PC) {
    pc.HDEmptyState? || pc.HDEmptyTail? || pc.HDEmptyPending? || pc.HDEmptyPhase? || pc.HDEmptyReadPhase? || pc.HDEmptyCas?
  }

  /** A helper that prepares such a descriptor: the queue was empty while the operation it helps was the latest
      of that thread, unless it is over. When the helper succeeds in installing it, it is not over. */
  lemma PreparedEmpty(run: seq<State>, k: nat, u: nat)
    requires IsRun(run) && k < |run| && u < |run[k].locals| && PreparesEmpty(run[k].locals[u].pc)
    ensures var h, l := run[k].heap, run[k].locals[u];
            && l.tid < |h.ops| && (h.ops[l.tid] == l.seen ==> WasEmptyFor(run, k, l.tid, l.seen))
            && (l.pc.HDEmptyCas? && SlotOf(h, l.tid) == l.cur ==> h.ops[l.tid] == l.seen && l.cur.desc.pending)
  {
    hide Shape, Claims, ClaimOwner, Dangling, SlotOk, LogOk, Contents, HelpEnqueueInv, FinishEnqueueInv, FinishDequeueInv, OuterInv;
    RunInv(run, k);
    var h, l := run[k].heap, run[k].locals[u];
    assert HelpDequeueInv(h, u, l);
    if h.ops[l.tid] == l.seen {
      EmptyInstant(run, k, l.tid);
    }
  }

  /** A step that does not leave the queue empty does not set `sawEmpty`, and keeps it only for the
      same operation. */
  ghost predicate EmptyKept(h: Heap, h': Heap, t: nat) {
    t < |h.sawEmpty| && t < |h'.sawEmpty| && t < |h.ops| && t < |h'.ops| && Contents(h') != [] && h'.sawEmpty[t] ==>
      h.sawEmpty[t] && h'.ops[t] == h.ops[t]
  }

  lemma HelpEnqueueEmptyKept(h: Heap, t: nat, l: Local, q: nat)
    requires Sizes(h)
    ensures InHelpEnqueue(l.pc) ==> EmptyKept(h, StepHelpEnqueue(h, t, l).0, q)
  {
    hide Contents;
  }

  lemma ClaimEmptyKept(h: Heap, at: nat, tid: nat, q: nat)
    requires Sizes(h)
    ensures EmptyKept(h, ClaimNode(h, at, tid), q)
  {
  }

  lemma HelpDequeueEmptyKept(h: Heap, t: nat, l: Local, q: nat)
    requires Sizes(h)
    ensures InHelpDequeue(l.pc) ==> EmptyKept(h, StepHelpDequeue(h, t, l).0, q)
  {
    HelpDequeueRecords(h, t, l);
    ClaimEmptyKept(h, l.headOld.node, l.tid, q);
    hide Contents, ClaimNode, StepHelpDequeue;
  }

  lemma HelpDequeueRecords(h: Heap, t: nat, l: Local)
    ensures var h' := StepHelpDequeue(h, t, l).0;
            if l.pc.HDCasDeqTid? then h' == h || h' == ClaimNode(h, l.headOld.node, l.tid)
            else h'.sawEmpty == h.sawEmpty && h'.ops == h.ops
  {
    hide Contents, ClaimNode;
  }

  lemma PublishEmptyKept(h: Heap, t: nat, l: Local, q: nat)
    requires HeapInv(h) && Ready(h, t, l)
    ensures EmptyKept(h, PublishOp(h, t, l), q)
  {
    PublishList(h, t, l);
  }

  lemma StepEmptyKept(s: State, u: nat, c: Choice, q: nat)
    requires Inv(s) && u < |s.locals|
    ensures EmptyKept(s.heap, Step(s, u, c).heap, q)
  {
    hide Shape, Claims, ClaimOwner, Dangling, SlotOk, ReplayQueue, Contents,
         HelpEnqueueInv, FinishEnqueueInv, HelpDequeueInv, FinishDequeueInv,
         StepHelpEnqueue, StepFinishEnqueue, StepHelpDequeue, StepFinishDequeue;
    var h, l := s.heap, s.locals[u];
    HelpEnqueueEmptyKept(h, u, l, q);
    HelpDequeueEmptyKept(h, u, l, q);
    FinishHistory(h, u, l);
    if l.pc.Publish? {
      PublishEmptyKept(h, u, l, q);
    } else {
      OuterHistory(h, u, l, c);
    }
  }

  // ------------------------------------------------------------------ real-time order

  lemma {:induction false} LogGrows(run: seq<State>, i: nat, k: nat)
    requires IsRun(run) && i <= k < |run|
    ensures |run[i].heap.log| <= |run[k].heap.log|
    ensures run[i].heap.log == run[k].heap.log[..|run[i].heap.log|]
    decreases k - i
  {
    hide Core, LocalInv, StepThread, Contents, Inv, Init;
    if i < k {
      LogGrows(run, i, k - 1);
      RunInv(run, k - 1);
      assert Next(run[k - 1], run[k - 1 + 1]);
      var u: nat, c :| u < |run[k - 1].locals| && run[k] == Step(run[k - 1], u, c);
      StepLog(run[k - 1], u, c);
      hide IsRun, Step;
      var m := |run[i].heap.log|;
      assert run[k].heap.log[..|run[k - 1].heap.log|][..m] == run[k].heap.log[..m];
    }
  }

  /** An event that is in the log at instant `i` precedes every event of an operation published
      after `i`: the order of the log respects real time. */
  lemma RealTimeOrder(run: seq<State>, i: nat, k: nat, a: nat, b: nat)
    requires IsRun(run) && i <= k < |run|
    requires a < |run[i].heap.log| && b < |run[k].heap.log|
    requires run[k].heap.log[b].tid < |run[i].heap.ops|
    requires run[k].heap.log[b].op > run[i].heap.ops[run[k].heap.log[b].tid]
    ensures a < b && run[k].heap.log[a] == run[i].heap.log[a]
  {
    LogGrows(run, i, k);
    RunInv(run, i);
    forall j | 0 <= j < |run[i].heap.log|
      ensures run[k].heap.log[j].tid < |run[i].heap.ops|
              && run[k].heap.log[j].op <= run[i].heap.ops[run[k].heap.log[j].tid]
    {
      assert run[k].heap.log[j] == run[i].heap.log[j];
    }
  }

  // ------------------------------------------------------------------ descriptors, head and tail

  /** At every instant: at most one node lies beyond tail; no node is in the list twice; a published
      enqueue stops being pending only after its node is linked, and tail passes the node only after
      that. */
  lemma EnqueueDiscipline(run: seq<State>, k: nat)
    requires IsRun(run) && k < |run|
    ensures var h := run[k].heap;
            && h.tail.aba < |h.list| <= h.tail.aba + 2
            && h.tail.node == h.list[h.tail.aba]
            && (forall i, j :: 0 <= i < j < |h.list| ==> h.list[i] != h.list[j])
            && forall q :: 0 <= q < |h.slots| && h.slots[q].desc.kind.Enq? && h.slots[q].desc.phase >= 0 ==>
                 && h.slots[q].desc.node.Some?
                 && (!h.slots[q].desc.pending ==> h.slots[q].desc.node.value in h.list)
                 && (h.slots[q].desc.pending && h.slots[q].desc.node.value in h.list ==>
                       |h.list| == h.tail.aba + 2 && h.list[h.tail.aba + 1] == h.slots[q].desc.node.value)
  {
    RunInv(run, k);
    var h := run[k].heap;
    forall i, j | 0 <= i < j < |h.list|
      ensures h.list[i] != h.list[j]
    {
      assert h.nodes[h.list[i]].pos == Some(i);
      assert h.nodes[h.list[j]].pos == Some(j);
    }
    forall q | 0 <= q < |h.slots| && h.slots[q].desc.kind.Enq? && h.slots[q].desc.phase >= 0
      ensures && h.slots[q].desc.node.Some?
              && (!h.slots[q].desc.pending ==> h.slots[q].desc.node.value in h.list)
              && (h.slots[q].desc.pending && h.slots[q].desc.node.value in h.list ==>
                    |h.list| == h.tail.aba + 2 && h.list[h.tail.aba + 1] == h.slots[q].desc.node.value)
    {
      EnqueueDescriptor(h, q);
    }
  }

  lemma EnqueueDescriptor(h: Heap, q: nat)
    requires Core(h) && q < |h.slots| && h.slots[q].desc.kind.Enq? && h.slots[q].desc.phase >= 0
    ensures h.slots[q].desc.node.Some?
    ensures !h.slots[q].desc.pending ==> h.slots[q].desc.node.value in h.list
    ensures h.slots[q].desc.pending && h.slots[q].desc.node.value in h.list ==>
              |h.list| == h.tail.aba + 2 && h.list[h.tail.aba + 1] == h.slots[q].desc.node.value
  {
    AtSlot(h, q);
    var n := h.slots[q].desc.node.value;
    AtNode(h, n);
    if h.slots[q].desc.pending && n in h.list {
      var i :| 0 <= i < |h.list| && h.list[i] == n;
    }
  }

  lemma HeadTailFrame(h: Heap, t: nat, l: Local, c: Choice)
    ensures var h' := StepThread(h, t, l, c).0;
            && (h'.tail != h.tail ==> l.pc.FECasTail?)
            && (h'.head != h.head ==> l.pc.FDCasHead?)
  {
  }

  /** Tail moves by one node at a time, and only after the descriptor of the enqueue that owns the
      node is final. */
  lemma TailMoves(s: State, t: nat, c: Choice)
    requires Inv(s) && t < |s.locals| && Step(s, t, c).heap.tail != s.heap.tail
    ensures var h, h' := s.heap, Step(s, t, c).heap;
            && h'.tail.aba == h.tail.aba + 1 < |h.list| && h'.tail.node == h.list[h.tail.aba + 1]
            && h'.tail.node < |h.nodes| && h.nodes[h'.tail.node].enqTid < |h.slots|
            && var d := h.slots[h.nodes[h'.tail.node].enqTid].desc;
               !d.pending && d.kind.Enq? && d.node == Some(h'.tail.node)
  {
    var h, l := s.heap, s.locals[t];
    hide Core, HelpEnqueueInv, HelpDequeueInv, FinishDequeueInv, OuterInv;
    HeadTailFrame(h, t, l, c);
    FinishEnqueueCasTail(h, t, l);
  }

  /** Head moves by one node at a time, and only after the descriptor of the dequeue that claimed
      the node is final and names it. */
  lemma HeadMoves(s: State, t: nat, c: Choice)
    requires Inv(s) && t < |s.locals| && Step(s, t, c).heap.head != s.heap.head
    ensures var h, h' := s.heap, Step(s, t, c).heap;
            && h'.head.aba == h.head.aba + 1 < |h.list| && h'.head.node == h.list[h.head.aba + 1]
            && h.head.node < |h.nodes| && h.nodes[h.head.node].deqTid.Some?
            && h.nodes[h.head.node].deqTid.value < |h.slots|
            && var d := h.slots[h.nodes[h.head.node].deqTid.value].desc;
               !d.pending && d.kind.Deq? && d.node == Some(h.head.node)
  {
    var h, l := s.heap, s.locals[t];
    hide Core, HelpEnqueueInv, HelpDequeueInv, FinishEnqueueInv, OuterInv,
         StepHelpEnqueue, StepFinishEnqueue, StepHelpDequeue, StepOuter;
    HeadTailFrame(h, t, l, c);
    FinishDequeueCasHead(h, t, l);
  }

  /** A claim is for ever, and phases never decrease. */
  lemma {:induction false} ClaimsAndPhasesStay(run: seq<State>, i: nat, k: nat)
    requires IsRun(run) && i <= k < |run|
    ensures var h, h' := run[i].heap, run[k].heap;
            && |h.nodes| <= |h'.nodes| && |h.slots| == |h'.slots|
            && (forall n {:trigger h.nodes[n]} :: 0 <= n < |h.nodes| && h.nodes[n].deqTid.Some? ==>
                  h'.nodes[n].deqTid == h.nodes[n].deqTid)
            && (forall q {:trigger h.slots[q]} :: 0 <= q < |h.slots| ==>
                  h'.slots[q].desc.phase >= h.slots[q].desc.phase)
    decreases k - i
  {
    hide Shape, Claims, ClaimOwner, Dangling, SlotOk, LogOk, LocalInv, StepThread;
    if i < k {
      ClaimsAndPhasesStay(run, i, k - 1);
      RunInv(run, k - 1);
      assert Next(run[k - 1], run[k - 1 + 1]);
      var u: nat, c :| u < |run[k - 1].locals| && run[k] == Step(run[k - 1], u, c);
      StepInv(run[k - 1], u, c);
      forall q | 0 <= q < |run[k - 1].heap.slots|
        ensures run[k].heap.slots[q].desc.phase >= run[k - 1].heap.slots[q].desc.phase
      {
        assert SlotStep(run[k - 1].heap, run[k].heap, q);
      }
    }
  }

  // ------------------------------------------------------------------ the phase lemma

  /** Once the operation a helper saw is over, every later operation of that thread has a phase the
      helper does not accept. */
  lemma LaterPhases(run: seq<State>, k: nat, u: nat)
    requires IsRun(run) && k < |run| && u < |run[k].locals| && IsHelping(run[k].locals[u])
    ensures var h, l := run[k].heap, run[k].locals[u];
            && l.tid < |h.slots| && l.tid < |h.ops|
            && l.seen <= h.ops[l.tid]
            && (h.slots[l.tid].desc.phase <= l.phase <==> h.ops[l.tid] == l.seen)
  {
    RunInv(run, k);
    HelperPublished(run[k].heap, u, run[k].locals[u]);
  }

  lemma HelperWrites(h: Heap, u: nat, l: Local)
    ensures InHelpEnqueue(l.pc) && StepHelpEnqueue(h, u, l).0 != h ==> l.pc.HECas?
    ensures InHelpDequeue(l.pc) && StepHelpDequeue(h, u, l).0 != h ==>
              l.pc.HDEmptyCas? || l.pc.HDCasState? || l.pc.HDCasDeqTid?
  {
  }

  /** Whatever a helper installs, links or claims for a thread is for the operation it saw. */
  lemma HelpersStayOnTarget(s: State, u: nat, c: Choice)
    requires Inv(s) && u < |s.locals|
    requires InHelpEnqueue(s.locals[u].pc) || InHelpDequeue(s.locals[u].pc)
    requires Step(s, u, c).heap != s.heap
    ensures var l := s.locals[u];
            l.tid < |s.heap.ops| && s.heap.ops[l.tid] == l.seen && s.heap.slots[l.tid].desc.pending
  {
    hide Shape, Claims, ClaimOwner, Dangling, SlotOk, LogOk, Rely, OuterInv,
         HelpEnqueueInv, HelpDequeueInv, FinishEnqueueInv, FinishDequeueInv,
         StepHelpEnqueue, StepHelpDequeue, StepFinishEnqueue, StepFinishDequeue, StepOuter;
    var h, l := s.heap, s.locals[u];
    HelperWrites(h, u, l);
    HelperPublished(h, u, l);
    if l.pc.HECas? {
      HelpEnqueueCas(h, u, l);
    } else if l.pc.HDEmptyCas? {
      HelpDequeueEmptyCas(h, u, l);
    } else if l.pc.HDCasState? {
      HelpDequeueCasState(h, u, l);
    } else {
      HelpDequeueCasDeqTid(h, u, l);
    }
  }
}
