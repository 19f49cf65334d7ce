/** The random-dequeue queue removes every item at most once, and never more than the quasi factor less
    one younger items before an older one. */
module RandomDequeueProof {
  import opened Basics
  import opened Histories
  import opened RandomDequeueModel

  // ------------------------------------------------------------------ the invariant

  ghost predicate NodeOk(h: Heap, i: nat)
    requires i < |h.nodes|
  {
    && h.nodes[i].next == (if i + 1 < |h.nodes| then Ptr(i + 1, 1) else Ptr(NIL, 0))
    && (1 <= i <= h.head.node ==> h.nodes[i].deleted)
  }

  /** The nodes are linked in order; head <= tail <= last with at most one node beyond tail; every node up
      to head, but the sentinel, has been deleted. */
  ghost predicate Shape(h: Heap) {
    && h.quasiFactor > 0
    && (forall i: nat {:trigger h.nodes[i]} :: i < |h.nodes| ==> NodeOk(h, i))
    && 0 <= h.head.node <= h.tail.node < |h.nodes| <= h.tail.node + 2
    && h.head.aba == h.head.node && h.tail.aba == h.tail.node
  }

  /** A deleted node is less than the quasi factor behind every node that is not deleted. */
  ghost predicate Window(h: Heap) {
    forall p: nat, j: nat {:trigger h.nodes[p], h.nodes[j]} ::
      1 <= p < j < |h.nodes| && !h.nodes[p].deleted && h.nodes[j].deleted ==> j < p + h.quasiFactor
  }

  ghost predicate EventOk(nodes: seq<Node>, log: seq<Event>, j: nat) {
    j < |log| ==>
      && !log[j].Missed? && 1 <= log[j].value < |nodes|
      && (log[j].Removed? ==> nodes[log[j].value].deleted)
  }

  /** Two events of the same kind name different nodes. */
  predicate Apart(e: Event, e': Event) {
    (e.Added? && e'.Added?) || (e.Removed? && e'.Removed?) ==> e.value != e'.value
  }

  ghost predicate HasLink(log: seq<Event>, n: int) {
    exists j :: 0 <= j < |log| && log[j].Added? && log[j].value == n
  }

  ghost predicate HasRemoval(log: seq<Event>, n: int) {
    exists j :: 0 <= j < |log| && log[j].Removed? && log[j].value == n
  }

  /** The log names the nodes that were linked and those that were deleted, once each. */
  ghost predicate Logged(nodes: seq<Node>, log: seq<Event>) {
    && (forall j: nat {:trigger EventOk(nodes, log, j)} :: EventOk(nodes, log, j))
    && (forall i, j {:trigger log[i], log[j]} :: 0 <= i < j < |log| ==> Apart(log[i], log[j]))
    && (forall n {:trigger HasLink(log, n)} :: 1 <= n < |nodes| ==> HasLink(log, n))
    && forall n {:trigger HasRemoval(log, n)} :: 1 <= n < |nodes| && nodes[n].deleted ==> HasRemoval(log, n)
  }

  ghost predicate Core(h: Heap) {
    Shape(h) && Window(h) && Logged(h.nodes, h.log)
  }

  /** What a step of any thread does. */
  ghost predicate HeapStep(h: Heap, h': Heap) {
    && h'.quasiFactor == h.quasiFactor
    && h.head.node <= h'.head.node && h.tail.node <= h'.tail.node
    && |h.nodes| <= |h'.nodes|
    && (forall i: nat {:trigger h.nodes[i]} {:trigger h'.nodes[i]} :: i < |h.nodes| ==>
          h'.nodes[i].value == h.nodes[i].value && (h.nodes[i].deleted ==> h'.nodes[i].deleted))
    && h.log <= h'.log
  }

  // ------------------------------------------------------------------ what a thread knows

  ghost predicate WasHead(h: Heap, p: Ptr) {
    0 <= p.node <= h.head.node && p.aba == p.node
  }

  ghost predicate WasTail(h: Heap, p: Ptr) {
    0 <= p.node <= h.tail.node && p.aba == p.node
  }

  ghost predicate NextOf(h: Heap, n: int, next: Ptr) {
    next == Ptr(NIL, 0) || (next == Ptr(n + 1, 1) && n + 1 < |h.nodes|)
  }

  ghost predicate EnqueueInv(h: Heap, l: Local) {
    && l.enqueue
    && match l.pc
       case EqReadTail => true
       case EqReadNext => WasTail(h, l.tailOld)
       case EqCheckTail => WasTail(h, l.tailOld) && NextOf(h, l.tailOld.node, l.next)
       case EqCasNext => WasTail(h, l.tailOld) && l.next == Ptr(NIL, 0)
       case EqHelpTail => WasTail(h, l.tailOld) && l.next == Ptr(l.tailOld.node + 1, 1) && l.next.node < |h.nodes|
       case EqCasTail => WasTail(h, l.tailOld) && l.node == l.tailOld.node + 1 < |h.nodes| && h.nodes[l.node].value == l.item
       case _ => false
  }

  /** A dequeue has picked a node less than the quasi factor behind the first one after head. */
  ghost predicate Picked(h: Heap, l: Local) {
    WasHead(h, l.headOld) && l.headOld.node < l.node < |h.nodes| && l.node <= l.headOld.node + h.quasiFactor
  }

  ghost predicate DequeueInv(h: Heap, l: Local) {
    && !l.enqueue
    && match l.pc
       case DqReadHead => true
       case DqReadTail => WasHead(h, l.headOld)
       case DqReadNext => WasHead(h, l.headOld) && WasTail(h, l.tailOld) && l.headOld.node <= l.tailOld.node
       case DqCheckHead =>
         && WasHead(h, l.headOld) && WasTail(h, l.tailOld) && l.headOld.node <= l.tailOld.node
         && NextOf(h, l.headOld.node, l.next)
         && (l.headOld.node < l.tailOld.node ==> l.next.node != NIL)
         && (l.next.node == NIL && h.head == l.headOld ==> l.sawEmpty)
       case DqHelpTail => WasTail(h, l.tailOld) && l.next == Ptr(l.tailOld.node + 1, 1) && l.next.node < |h.nodes|
       case DqReadDeleted =>
         WasHead(h, l.headOld) && WasTail(h, l.tailOld) && l.node == l.headOld.node + 1 <= l.tailOld.node
       case DqCasHead =>
         && WasHead(h, l.headOld) && WasTail(h, l.tailOld) && l.node == l.headOld.node + 1 <= l.tailOld.node
         && l.node < |h.nodes| && h.nodes[l.node].deleted
       case DqNextHead =>
         WasHead(h, l.headOld) && WasTail(h, l.tailOld) && l.headOld.node < l.tailOld.node
       case DqWalk => Picked(h, l) && l.node == l.headOld.node + 1 + l.i && l.i <= l.randomIndex < h.quasiFactor
       case DqCheckDeleted | DqCasDeleted => Picked(h, l)
       case _ => false
  }

  /** An operation that is about to return; the node of an enqueue is not beyond tail. */
  ghost predicate Returning(h: Heap, t: nat, l: Local) {
    if l.enqueue then
      l.result.True? && 0 <= l.node <= h.tail.node && l.node < |h.nodes| && h.nodes[l.node].value == l.item
    else
      match l.result
      case TrueValue(v) =>
        0 <= l.node < |h.nodes| && h.nodes[l.node].value == v && h.nodes[l.node].deleted && Removed(t, l.op, l.node) in h.log
      case False => l.sawEmpty
      case _ => false
  }

  ghost predicate LocalInv(h: Heap, t: nat, l: Local) {
    if InEnqueue(l.pc) then EnqueueInv(h, l)
    else if InDequeue(l.pc) then DequeueInv(h, l)
    else l.pc.Return? ==> Returning(h, t, l)
  }

  lemma Stable(h: Heap, h': Heap, t: nat, l: Local)
    requires Shape(h) && Shape(h') && HeapStep(h, h') && LocalInv(h, t, l)
    ensures LocalInv(h', t, l) == true
  {
    if l.pc.Return? && l.result.TrueValue? && !l.enqueue {
      var j :| 0 <= j < |h.log| && h.log[j] == Removed(t, l.op, l.node);
      assert h'.log[j] == h.log[j];
    }
  }

  // ------------------------------------------------------------------ writes to shared memory

  lemma LogMore(nodes: seq<Node>, log: seq<Event>, nodes': seq<Node>, e: Event)
    requires Logged(nodes, log) && |nodes| <= |nodes'|
    requires forall n {:trigger nodes'[n]} :: 0 <= n < |nodes'| ==>
               (nodes'[n].deleted <==> (n < |nodes| && nodes[n].deleted) || (e.Removed? && e.value == n))
    requires !e.Missed? && 1 <= e.value < |nodes'| && (e.Removed? ==> nodes'[e.value].deleted)
    requires forall j {:trigger log[j]} :: 0 <= j < |log| ==> Apart(log[j], e)
    requires |nodes'| == if e.Added? then |nodes| + 1 else |nodes|
    requires e.Added? ==> e.value == |nodes|
    ensures Logged(nodes', log + [e])
  {
    var log' := log + [e];
    forall j: nat ensures EventOk(nodes', log', j) {
      assert EventOk(nodes, log, j);
    }
    forall n | 1 <= n < |nodes'| ensures HasLink(log', n) {
      if n < |nodes| {
        assert HasLink(log, n);
        var j :| 0 <= j < |log| && log[j].Added? && log[j].value == n;
        assert log'[j] == log[j];
      } else {
        assert log'[|log|] == e;
      }
    }
    forall n | 1 <= n < |nodes'| && nodes'[n].deleted ensures HasRemoval(log', n) {
      if n < |nodes| && nodes[n].deleted {
        assert HasRemoval(log, n);
        var j :| 0 <= j < |log| && log[j].Removed? && log[j].value == n;
        assert log'[j] == log[j];
      } else {
        assert log'[|log|] == e;
      }
    }
  }

  lemma LinkLogged(h: Heap, item: int, t: nat, op: nat)
    requires Logged(h.nodes, h.log) && 0 <= h.tail.node < |h.nodes|
    ensures var h' := LinkNode(h, h.tail.node, 1, item, t, op); Logged(h'.nodes, h'.log)
  {
    forall j | 0 <= j < |h.log| ensures Apart(h.log[j], Added(t, op, |h.nodes|)) {
      assert EventOk(h.nodes, h.log, j);
    }
    LogMore(h.nodes, h.log, LinkNode(h, h.tail.node, 1, item, t, op).nodes, Added(t, op, |h.nodes|));
  }

  lemma DeleteLogged(h: Heap, n: nat, t: nat, op: nat)
    requires Logged(h.nodes, h.log) && 1 <= n < |h.nodes| && !h.nodes[n].deleted
    ensures var h' := DeleteNode(h, n, t, op); Logged(h'.nodes, h'.log)
  {
    forall j | 0 <= j < |h.log| ensures Apart(h.log[j], Removed(t, op, n)) {
      assert EventOk(h.nodes, h.log, j);
    }
    LogMore(h.nodes, h.log, DeleteNode(h, n, t, op).nodes, Removed(t, op, n));
  }

  lemma LinkKeeps(h: Heap, item: int, t: nat, op: nat)
    requires Core(h) && |h.nodes| == h.tail.node + 1
    ensures var h' := LinkNode(h, h.tail.node, 1, item, t, op);
            Core(h') && HeapStep(h, h') && h'.nodes[|h.nodes|].value == item
  {
    var h' := LinkNode(h, h.tail.node, 1, item, t, op);
    LinkLogged(h, item, t, op);
    hide Logged;
    forall i: nat | i < |h'.nodes| ensures NodeOk(h', i) {
      assert i < |h.nodes| ==> NodeOk(h, i);
    }
    forall p: nat, j: nat | 1 <= p < j < |h'.nodes| && !h'.nodes[p].deleted && h'.nodes[j].deleted
      ensures j < p + h.quasiFactor
    {
      assert !h.nodes[p].deleted && h.nodes[j].deleted;
    }
  }

  lemma AdvanceTailKeeps(h: Heap)
    requires Core(h) && h.tail.node + 1 < |h.nodes|
    ensures var h' := CasTail(h, h.tail, h.tail.node + 1); Core(h') && HeapStep(h, h') && h'.tail.node == h.tail.node + 1
  {
    var h' := CasTail(h, h.tail, h.tail.node + 1);
    forall i: nat | i < |h'.nodes| ensures NodeOk(h', i) {
      assert NodeOk(h, i);
    }
  }

  /** Head moves only to a node that has been deleted, and not beyond tail. */
  lemma AdvanceHeadKeeps(h: Heap)
    requires Core(h) && h.head.node < h.tail.node && h.nodes[h.head.node + 1].deleted
    ensures var h' := h.(head := Ptr(h.head.node + 1, h.head.aba + 1)); Core(h') && HeapStep(h, h')
  {
    var h' := h.(head := Ptr(h.head.node + 1, h.head.aba + 1));
    forall i: nat | i < |h'.nodes| ensures NodeOk(h', i) {
      assert NodeOk(h, i);
    }
  }

  /** A node that is deleted is less than the quasi factor behind any node that is not: head has not
      passed that one. */
  lemma DeleteKeeps(h: Heap, l: Local, t: nat)
    requires Core(h) && Picked(h, l) && !h.nodes[l.node].deleted
    ensures var h' := DeleteNode(h, l.node, t, l.op); Core(h') && HeapStep(h, h') && Removed(t, l.op, l.node) in h'.log
  {
    var h' := DeleteNode(h, l.node, t, l.op);
    forall i: nat | i < |h'.nodes| ensures NodeOk(h', i) {
      assert NodeOk(h, i);
    }
    forall p: nat, j: nat | 1 <= p < j < |h'.nodes| && !h'.nodes[p].deleted && h'.nodes[j].deleted
      ensures j < p + h.quasiFactor
    {
      assert NodeOk(h, p);
      assert !h.nodes[p].deleted;
    }
    DeleteLogged(h, l.node, t, l.op);
    hide Logged;
    assert h'.log[|h.log|] == Removed(t, l.op, l.node);
  }

  // ------------------------------------------------------------------ the steps

  ghost predicate StepOk(h: Heap, h': Heap, t: nat, l': Local) {
    Core(h') && HeapStep(h, h') && LocalInv(h', t, l')
  }

  lemma EnqueueKeeps(h: Heap, t: nat, l: Local)
    requires Core(h) && EnqueueInv(h, l)
    ensures var (h', l') := StepEnqueue(h, t, l); StepOk(h, h', t, l') == true
  {
    hide Window, Logged, DequeueInv;
    assert l.pc.EqReadNext? || l.pc.EqCasNext? ==> NodeOk(h, l.tailOld.node);
    if l.pc.EqCasNext? && h.nodes[l.tailOld.node].next == l.next {
      LinkKeeps(h, l.item, t, l.op);
    } else if (l.pc.EqHelpTail? || l.pc.EqCasTail?) && h.tail == l.tailOld {
      AdvanceTailKeeps(h);
    }
  }

  /** A null `next` of a node that is still head shows that everything has been deleted. */
  lemma DequeueReads(h: Heap, t: nat, l: Local, c: Choice)
    requires Core(h) && DequeueInv(h, l) && !l.pc.DqHelpTail? && !l.pc.DqCasHead? && !l.pc.DqCasDeleted?
    ensures StepDequeue(h, t, l, c).0 == h && LocalInv(h, t, StepDequeue(h, t, l, c).1) == true
  {
    hide Window, Logged, EnqueueInv;
    assert l.pc.DqReadNext? || l.pc.DqNextHead? ==> NodeOk(h, l.headOld.node);
    assert l.pc.DqWalk? ==> NodeOk(h, l.node);
    if l.pc.DqReadNext? && h.head == l.headOld && h.nodes[l.headOld.node].next.node == NIL {
      forall i: nat | 1 <= i < |h.nodes| ensures h.nodes[i].deleted {
        assert NodeOk(h, i);
      }
    }
  }

  lemma DequeueWrites(h: Heap, t: nat, l: Local, c: Choice)
    requires Core(h) && DequeueInv(h, l) && (l.pc.DqHelpTail? || l.pc.DqCasHead? || l.pc.DqCasDeleted?)
    ensures var (h', l') := StepDequeue(h, t, l, c); StepOk(h, h', t, l') == true
  {
    hide Window, Logged, EnqueueInv;
    if l.pc.DqHelpTail? && h.tail == l.tailOld {
      AdvanceTailKeeps(h);
    } else if l.pc.DqCasHead? && h.head == l.headOld {
      AdvanceHeadKeeps(h);
    } else if l.pc.DqCasDeleted? && !h.nodes[l.node].deleted {
      DeleteKeeps(h, l, t);
    }
  }

  lemma ThreadKeeps(h: Heap, t: nat, l: Local, c: Choice)
    requires Core(h) && LocalInv(h, t, l)
    ensures var (h', l') := StepThread(h, t, l, c); StepOk(h, h', t, l') == true
  {
    hide Window, Logged, StepEnqueue, StepDequeue;
    if InEnqueue(l.pc) { EnqueueKeeps(h, t, l); }
    else if l.pc.DqHelpTail? || l.pc.DqCasHead? || l.pc.DqCasDeleted? { DequeueWrites(h, t, l, c); }
    else if InDequeue(l.pc) { DequeueReads(h, t, l, c); }
  }

  // ------------------------------------------------------------------ every run

  ghost predicate Inv(s: State) {
    && Core(s.heap)
    && forall t {:trigger s.locals[t]} :: 0 <= t < |s.locals| ==> LocalInv(s.heap, t, s.locals[t])
  }

  lemma StepInv(s: State, u: nat, c: Choice)
    requires Inv(s) && u < |s.locals|
    ensures Inv(Step(s, u, c)) && HeapStep(s.heap, Step(s, u, c).heap)
  {
    hide Window, Logged, LocalInv, StepThread, HeapStep;
    ThreadKeeps(s.heap, u, s.locals[u], c);
    var s' := Step(s, u, c);
    forall t: nat | t < |s'.locals| ensures LocalInv(s'.heap, t, s'.locals[t]) {
      if t != u {
        Stable(s.heap, s'.heap, t, s.locals[t]);
      }
    }
  }

  lemma StepAt(run: seq<State>, k: nat) returns (u: nat, c: Choice)
    requires IsRun(run) && 0 < k < |run|
    ensures u < |run[k - 1].locals| && run[k] == Step(run[k - 1], u, c)
  {
    assert Next(run[k - 1], run[k - 1 + 1]);
    u, c :| u < |run[k - 1].locals| && run[k] == Step(run[k - 1], u, c);
  }

  lemma {:induction false} RunInv(run: seq<State>, k: nat)
    requires IsRun(run) && k < |run|
    ensures Inv(run[k]) && |run[k].locals| == |run[0].locals|
  {
    if k == 0 {
      assert NodeOk(run[0].heap, 0);
      forall j: nat ensures EventOk(run[0].heap.nodes, run[0].heap.log, j) {}
    } else {
      RunInv(run, k - 1);
      var u, c := StepAt(run, k);
      StepInv(run[k - 1], u, c);
    }
  }

  lemma {:induction false} Grows(run: seq<State>, i: nat, k: nat)
    requires IsRun(run) && i <= k < |run|
    ensures HeapStep(run[i].heap, run[k].heap)
    decreases k - i
  {
    hide Core, LocalInv, StepThread;
    if i < k {
      Grows(run, i, k - 1);
      RunInv(run, k - 1);
      var u, c := StepAt(run, k);
      StepInv(run[k - 1], u, c);
    }
  }

  // ------------------------------------------------------------------ the promises

  /** At every instant, head is not beyond tail, and every node it has passed has been deleted. */
  lemma HeadPassesOnlyDeleted(run: seq<State>, k: nat, i: nat)
    requires IsRun(run) && k < |run| && 1 <= i <= run[k].heap.head.node
    ensures run[k].heap.head.node <= run[k].heap.tail.node < |run[k].heap.nodes|
    ensures run[k].heap.nodes[i].deleted
  {
    RunInv(run, k);
    assert NodeOk(run[k].heap, i);
  }

  /** The items younger than that of node `p` that have been removed. */
  function Overtaking(h: Heap, p: nat): set<nat> {
    set j: nat | p < j < |h.nodes| && h.nodes[j].deleted
  }

  /** As long as an item has not been removed, less than the quasi factor of the items enqueued after it
      have been. */
  lemma BoundedOvertaking(run: seq<State>, k: nat, p: nat)
    requires IsRun(run) && k < |run| && 1 <= p < |run[k].heap.nodes| && !run[k].heap.nodes[p].deleted
    ensures |Overtaking(run[k].heap, p)| < run[k].heap.quasiFactor
  {
    RunInv(run, k);
    var h := run[k].heap;
    Interval(p + 1, p + h.quasiFactor, Overtaking(h, p));
  }

  /** No two dequeues, of any threads, at any time, return the item of the same node; what a dequeue
      returns is the item of the node it deleted. */
  lemma ReturnedOnce(run: seq<State>, i: nat, k: nat, t: nat, u: nat)
    requires IsRun(run) && i <= k < |run| && t < |run[i].locals| && u < |run[k].locals|
    requires run[i].locals[t].pc.Return? && !run[i].locals[t].enqueue && run[i].locals[t].result.TrueValue?
    requires run[k].locals[u].pc.Return? && !run[k].locals[u].enqueue && run[k].locals[u].result.TrueValue?
    ensures run[i].locals[t].node == run[k].locals[u].node ==> t == u && run[i].locals[t].op == run[k].locals[u].op
    ensures var n := run[i].locals[t].node;
            0 <= n < |run[i].heap.nodes| && run[i].heap.nodes[n].deleted
            && run[i].locals[t].result.value == run[i].heap.nodes[n].value
  {
    RunInv(run, i);
    RunInv(run, k);
    Grows(run, i, k);
    var l, m := run[i].locals[t], run[k].locals[u];
    var a :| 0 <= a < |run[i].heap.log| && run[i].heap.log[a] == Removed(t, l.op, l.node);
    var b :| 0 <= b < |run[k].heap.log| && run[k].heap.log[b] == Removed(u, m.op, m.node);
    assert run[k].heap.log[a] == run[i].heap.log[a];
  }

  lemma SawEmptyStep(h: Heap, u: nat, l: Local, c: Choice)
    ensures var l' := StepThread(h, u, l, c).1;
            l'.sawEmpty ==> l'.op == l.op && (l.sawEmpty || Drained(h))
  {
    hide Drained;
  }

  lemma {:induction false} EmptyInstant(run: seq<State>, k: nat, t: nat)
    requires IsRun(run) && k < |run| && t < |run[k].locals| && run[k].locals[t].sawEmpty
    ensures exists i: nat :: i < k && |run[i].locals| == |run[k].locals| && run[i].locals[t].op == run[k].locals[t].op
                             && Drained(run[i].heap)
  {
    hide Core, LocalInv, StepThread, Drained;
    RunInv(run, k);
    RunInv(run, k - 1);
    var u, c := StepAt(run, k);
    if u == t {
      SawEmptyStep(run[k - 1].heap, t, run[k - 1].locals[t], c);
    }
    if run[k - 1].locals[t].sawEmpty {
      EmptyInstant(run, k - 1, t);
    }
  }

  /** A dequeue that returns false met an instant at which every item ever linked had been removed; it
      never takes the exit at which it has run past the last node. */
  lemma DequeueFalse(run: seq<State>, k: nat, t: nat)
    requires IsRun(run) && k < |run| && t < |run[k].locals|
    ensures run[k].locals[t].pc.DqReadDeleted? ==> run[k].locals[t].node != NIL
    ensures run[k].locals[t].pc.Return? && !run[k].locals[t].enqueue && !run[k].locals[t].result.TrueValue? ==>
              && run[k].locals[t].result.False?
              && exists i: nat :: i < k && |run[i].locals| == |run[k].locals|
                                  && run[i].locals[t].op == run[k].locals[t].op && Drained(run[i].heap)
  {
    RunInv(run, k);
    if run[k].locals[t].pc.Return? && !run[k].locals[t].enqueue && !run[k].locals[t].result.TrueValue? {
      EmptyInstant(run, k, t);
    }
  }
}
