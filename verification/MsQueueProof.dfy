/** The Michael-Scott queue is linearizable, and its version numbers count links. */
module MsQueueProof {
  import opened Basics
  import opened Histories
  import opened Linearization
  import opened MsQueueModel

  // ------------------------------------------------------------------ the invariant

  ghost predicate NodeOk(h: Heap, i: nat)
    requires i < |h.nodes|
  {
    h.nodes[i].next == if i + 1 < |h.nodes| then Ptr(i + 1, 1) else Ptr(NIL, 0)
  }

  /** The nodes are linked in order; head <= tail <= last with at most one node beyond tail; the versions
      of head and tail are their positions. */
  ghost predicate Shape(h: Heap) {
    && (forall i: nat {:trigger h.nodes[i]} :: i < |h.nodes| ==> NodeOk(h, i))
    && 0 <= h.head.node <= h.tail.node < |h.nodes| <= h.tail.node + 2
    && h.head.aba == h.head.node && h.tail.aba == h.tail.node
  }

  /** The log is a legal history of a FIFO queue that ends in the present contents. */
  ghost predicate Core(h: Heap) {
    Shape(h) && ReplayQueue(h.log) == Some(Contents(h))
  }

  /** The steps of threads other than `t` stay within this relation. */
  ghost predicate Rely(h: Heap, h': Heap, t: nat) {
    && h.head.node <= h'.head.node && h.tail.node <= h'.tail.node
    && |h.nodes| <= |h'.nodes|
    && (forall i: nat {:trigger h.nodes[i]} {:trigger h'.nodes[i]} :: i < |h.nodes| ==> h'.nodes[i].value == h.nodes[i].value)
    && GrownByOthers(h.log, h'.log, t)
  }

  // ------------------------------------------------------------------ what a thread knows

  ghost predicate WasHead(h: Heap, p: Ptr) {
    0 <= p.node <= h.head.node && p.aba == p.node
  }

  ghost predicate WasTail(h: Heap, p: Ptr) {
    0 <= p.node <= h.tail.node && p.aba == p.node
  }

  /** The next pointer of node `n` read earlier. */
  ghost predicate NextOf(h: Heap, n: int, next: Ptr) {
    next == Ptr(NIL, 0) || (next == Ptr(n + 1, 1) && n + 1 < |h.nodes|)
  }

  ghost predicate EnqueueInv(h: Heap, t: nat, l: Local) {
    && l.enqueue
    && match l.pc
       case EqReadTail => NoEvent(h.log, t, l.op)
       case EqReadNext => WasTail(h, l.tailOld) && NoEvent(h.log, t, l.op)
       case EqCheckTail => WasTail(h, l.tailOld) && NextOf(h, l.tailOld.node, l.next) && NoEvent(h.log, t, l.op)
       case EqCasNext => WasTail(h, l.tailOld) && l.next == Ptr(NIL, 0) && NoEvent(h.log, t, l.op)
       case EqHelpTail => WasTail(h, l.tailOld) && l.next == Ptr(l.tailOld.node + 1, 1) && l.next.node < |h.nodes| && NoEvent(h.log, t, l.op)
       case EqCasTail =>
         && WasTail(h, l.tailOld) && l.node == l.tailOld.node + 1 < |h.nodes| && h.nodes[l.node].value == l.item
         && OneEvent(h.log, Added(t, l.op, l.item))
       case _ => false
  }

  ghost predicate DequeueInv(h: Heap, t: nat, l: Local) {
    && !l.enqueue && NoEvent(h.log, t, l.op)
    && match l.pc
       case DqReadHead => true
       case DqReadTail => WasHead(h, l.headOld)
       case DqReadNext => WasHead(h, l.headOld) && WasTail(h, l.tailOld) && l.headOld.node <= l.tailOld.node
       case DqCheckHead =>
         && WasHead(h, l.headOld) && WasTail(h, l.tailOld) && l.headOld.node <= l.tailOld.node
         && NextOf(h, l.headOld.node, l.next)
         && (l.headOld.node < l.tailOld.node ==> l.next.node != NIL)
         && (l.next.node == NIL && h.head == l.headOld ==> l.sawEmpty)
       case DqHelpTail =>
         && WasTail(h, l.tailOld) && l.next == Ptr(l.tailOld.node + 1, 1) && l.next.node < |h.nodes|
       case DqReadValue =>
         && WasHead(h, l.headOld) && l.headOld.node < h.tail.node
         && l.next == Ptr(l.headOld.node + 1, 1) && l.next.node < |h.nodes|
       case DqCasHead =>
         && WasHead(h, l.headOld) && l.headOld.node < h.tail.node
         && l.next == Ptr(l.headOld.node + 1, 1) && l.next.node < |h.nodes| && l.value == h.nodes[l.next.node].value
       case _ => false
  }

  /** An operation that is about to return; the node of an enqueue is not beyond tail, and after a false
      dequeue head is at least where tail was read. */
  ghost predicate Returning(h: Heap, t: nat, l: Local) {
    if l.enqueue then
      && l.result.True? && l.node <= h.tail.node && l.node < |h.nodes| && h.nodes[l.node].value == l.item
      && OneEvent(h.log, Added(t, l.op, l.item))
    else
      match l.result
      case TrueValue(v) => OneEvent(h.log, Removed(t, l.op, v))
      case False => NoEvent(h.log, t, l.op) && l.sawEmpty && WasTail(h, l.tailOld) && l.tailOld.node <= h.head.node
      case _ => false
  }

  ghost predicate LocalInv(h: Heap, t: nat, l: Local) {
    if InEnqueue(l.pc) then EnqueueInv(h, t, l)
    else if InDequeue(l.pc) then DequeueInv(h, t, l)
    else if l.pc.Return? then Returning(h, t, l)
    else NoEvent(h.log, t, l.op + 1)
  }

  // ------------------------------------------------------------------ stability

  lemma Stable(h: Heap, h': Heap, t: nat, l: Local)
    requires Shape(h) && Shape(h') && Rely(h, h', t) && LocalInv(h, t, l)
    ensures LocalInv(h', t, l) == true
  {
    if l.pc.EqCasTail? || (l.pc.Return? && l.enqueue) {
      StableOneEvent(h.log, h'.log, Added(t, l.op, l.item));
    } else if l.pc.Return? && l.result.TrueValue? {
      StableOneEvent(h.log, h'.log, Removed(t, l.op, l.result.value));
    } else {
      StableNoEvent(h.log, h'.log, t, if l.pc.Idle? then l.op + 1 else l.op);
    }
  }

  // ------------------------------------------------------------------ writes to shared memory

  ghost predicate Guarantee(h: Heap, h': Heap, u: nat) {
    forall t: nat {:trigger Rely(h, h', t)} :: t != u ==> Rely(h, h', t)
  }

  /** The successful CAS of `next` appends a value. */
  lemma LinkKeeps(h: Heap, u: nat, op: nat, item: int)
    requires Core(h) && |h.nodes| == h.tail.node + 1
    ensures var h' := LinkNode(h, h.tail.node, 1, item, u, op);
            && Core(h') && Guarantee(h, h', u) && Contents(h') == Contents(h) + [item]
            && h'.nodes[|h.nodes|].value == item
  {
    var h' := LinkNode(h, h.tail.node, 1, item, u, op);
    forall i: nat | i < |h'.nodes| ensures NodeOk(h', i) {
      assert i < |h.nodes| ==> NodeOk(h, i);
    }
    assert Contents(h') == Contents(h) + [item];
    AppendGrows(h.log, Added(u, op, item));
    hide GrownByOthers, ReplayQueue;
    QueueAppend(h.log, Added(u, op, item));
  }

  lemma AdvanceTailKeeps(h: Heap, u: nat)
    requires Core(h) && h.tail.node + 1 < |h.nodes|
    ensures var h' := CasTail(h, h.tail, h.tail.node + 1);
            Core(h') && Guarantee(h, h', u) && Contents(h') == Contents(h) && h'.tail.node == h.tail.node + 1
  {
    var h' := CasTail(h, h.tail, h.tail.node + 1);
    forall i: nat | i < |h'.nodes| ensures NodeOk(h', i) {
      assert NodeOk(h, i);
    }
  }

  /** The successful CAS of head removes the first value. */
  lemma AdvanceHeadKeeps(h: Heap, u: nat, op: nat)
    requires Core(h) && h.head.node < h.tail.node
    ensures var v := h.nodes[h.head.node + 1].value;
            var h' := h.(head := Ptr(h.head.node + 1, h.head.aba + 1), log := h.log + [Removed(u, op, v)]);
            Core(h') && Guarantee(h, h', u) && Contents(h) == [v] + Contents(h')
  {
    var v := h.nodes[h.head.node + 1].value;
    var h' := h.(head := Ptr(h.head.node + 1, h.head.aba + 1), log := h.log + [Removed(u, op, v)]);
    forall i: nat | i < |h'.nodes| ensures NodeOk(h', i) {
      assert NodeOk(h, i);
    }
    assert Contents(h) == [v] + Contents(h');
    assert Contents(h)[1..] == Contents(h');
    AppendGrows(h.log, Removed(u, op, v));
    hide GrownByOthers, ReplayQueue;
    QueueAppend(h.log, Removed(u, op, v));
  }

  // ------------------------------------------------------------------ the steps

  /** What one step does to the abstract queue: nothing, or it appends the item of this operation, or it
      removes the first value on behalf of this operation. */
  ghost predicate ContentsStep(h: Heap, h': Heap, u: nat, l: Local) {
    || (h'.log == h.log && Contents(h') == Contents(h))
    || (&& l.pc.EqCasNext? && h'.log == h.log + [Added(u, l.op, l.item)]
        && Contents(h') == Contents(h) + [l.item])
    || (&& l.pc.DqCasHead? && |Contents(h)| > 0 && h'.log == h.log + [Removed(u, l.op, Contents(h)[0])]
        && Contents(h') == Contents(h)[1..])
  }

  ghost predicate StepOk(h: Heap, h': Heap, u: nat, l: Local, l': Local) {
    Core(h') && Guarantee(h, h', u) && LocalInv(h', u, l') && ContentsStep(h, h', u, l)
  }

  lemma EnqueueKeeps(h: Heap, u: nat, l: Local)
    requires Core(h) && EnqueueInv(h, u, l)
    ensures var (h', l') := StepEnqueue(h, u, l); StepOk(h, h', u, l, l') == true
  {
    hide ReplayQueue, OneEvent, DequeueInv;
    assert l.pc.EqReadNext? || l.pc.EqCasNext? ==> NodeOk(h, l.tailOld.node);
    if l.pc.EqCasNext? && h.nodes[l.tailOld.node].next == l.next {
      LinkKeeps(h, u, l.op, l.item);
      FirstEvent(h.log, Added(u, l.op, l.item));
    } else if (l.pc.EqHelpTail? || l.pc.EqCasTail?) && h.tail == l.tailOld {
      AdvanceTailKeeps(h, u);
    }
  }

  /** Reading a null `next` of a node that is still head shows that the queue is empty. */
  lemma DequeueReads(h: Heap, u: nat, l: Local)
    requires Core(h) && DequeueInv(h, u, l) && !l.pc.DqHelpTail? && !l.pc.DqCasHead?
    ensures StepDequeue(h, u, l).0 == h && LocalInv(h, u, StepDequeue(h, u, l).1) == true
  {
    hide ReplayQueue, OneEvent, EnqueueInv;
    assert l.pc.DqReadNext? ==> NodeOk(h, l.headOld.node);
  }

  lemma DequeueHelp(h: Heap, u: nat, l: Local)
    requires Core(h) && DequeueInv(h, u, l) && l.pc.DqHelpTail?
    ensures var (h', l') := StepDequeue(h, u, l);
            && Core(h') && Guarantee(h, h', u) && l'.pc.DqReadHead? && DequeueInv(h', u, l')
            && h'.log == h.log && Contents(h') == Contents(h)
  {
    hide ReplayQueue;
    if h.tail == l.tailOld {
      AdvanceTailKeeps(h, u);
    }
  }

  lemma DequeueCas(h: Heap, u: nat, l: Local)
    requires Core(h) && DequeueInv(h, u, l) && l.pc.DqCasHead? && h.head == l.headOld
    ensures var (h', l') := StepDequeue(h, u, l);
            && Core(h') && Guarantee(h, h', u) && l'.pc.Return? && Returning(h', u, l') && ContentsStep(h, h', u, l)
  {
    hide ReplayQueue, OneEvent, Contents;
    AdvanceHeadKeeps(h, u, l.op);
    FirstEvent(h.log, Removed(u, l.op, l.value));
    assert Contents(h)[1..] == Contents(StepDequeue(h, u, l).0);
  }

  lemma DequeueKeeps(h: Heap, u: nat, l: Local)
    requires Core(h) && DequeueInv(h, u, l)
    ensures var (h', l') := StepDequeue(h, u, l); StepOk(h, h', u, l, l') == true
  {
    hide ReplayQueue, Shape, Contents, OneEvent, EnqueueInv, Returning;
    if l.pc.DqHelpTail? {
      DequeueHelp(h, u, l);
    } else if l.pc.DqCasHead? && h.head == l.headOld {
      DequeueCas(h, u, l);
    } else if !l.pc.DqCasHead? {
      DequeueReads(h, u, l);
    }
  }

  lemma ThreadKeeps(h: Heap, u: nat, l: Local, c: Choice)
    requires Core(h) && LocalInv(h, u, l)
    ensures var (h', l') := StepThread(h, u, l, c); StepOk(h, h', u, l, l') == true
  {
    hide ReplayQueue, Contents, StepEnqueue, StepDequeue;
    if InEnqueue(l.pc) { EnqueueKeeps(h, u, l); }
    else if InDequeue(l.pc) { DequeueKeeps(h, u, l); }
  }

  // ------------------------------------------------------------------ every run

  ghost predicate Inv(s: State) {
    && Core(s.heap)
    && forall t {:trigger s.locals[t]} :: 0 <= t < |s.locals| ==> LocalInv(s.heap, t, s.locals[t])
  }

  /** Every step of every thread keeps the invariant, and does to the abstract queue what it should. */
  lemma StepInv(s: State, u: nat, c: Choice)
    requires Inv(s) && u < |s.locals|
    ensures Inv(Step(s, u, c)) && ContentsStep(s.heap, Step(s, u, c).heap, u, s.locals[u])
    ensures Guarantee(s.heap, Step(s, u, c).heap, u)
  {
    hide ReplayQueue, LocalInv, StepThread, Rely, ContentsStep;
    ThreadKeeps(s.heap, u, s.locals[u], c);
    var s' := Step(s, u, c);
    forall t: nat | t < |s'.locals| ensures LocalInv(s'.heap, t, s'.locals[t]) {
      if t != u {
        assert Rely(s.heap, s'.heap, t);
        Stable(s.heap, s'.heap, t, s.locals[t]);
      }
    }
  }

  lemma StepAt(run: seq<State>, k: nat) returns (u: nat, c: Choice)
    requires IsRun(run) && 0 < k < |run|
    ensures u < |run[k - 1].locals| && run[k] == Step(run[k - 1], u, c)
  {
    assert Next(run[k - 1], run[k - 1 + 1]);
    u, c :| u < |run[k - 1].locals| && run[k] == Step(run[k - 1], u, c);
  }

  lemma {:induction false} RunInv(run: seq<State>, k: nat)
    requires IsRun(run) && k < |run|
    ensures Inv(run[k]) && |run[k].locals| == |run[0].locals|
  {
    if k == 0 {
      assert NodeOk(run[0].heap, 0);
    } else {
      RunInv(run, k - 1);
      var u, c := StepAt(run, k);
      StepInv(run[k - 1], u, c);
    }
  }

  // ------------------------------------------------------------------ the promises

  /** At every instant the log is a legal history of a FIFO queue that ends in the present contents. */
  lemma Linearizable(run: seq<State>, k: nat)
    requires IsRun(run) && k < |run|
    ensures ReplayQueue(run[k].heap.log) == Some(Contents(run[k].heap))
  {
    RunInv(run, k);
  }

  /** `path` goes from head to tail through next pointers. */
  ghost predicate HeadToTail(h: Heap, path: seq<int>) {
    && |path| > 0 && path[0] == h.head.node && path[|path| - 1] == h.tail.node
    && forall i :: 0 <= i < |path| - 1 ==> 0 <= path[i] < |h.nodes| && h.nodes[path[i]].next.node == path[i + 1]
  }

  /** At every instant, head has not passed tail: there is a path of next pointers from head to tail; and
      every such path has as many links as the version of tail exceeds the version of head. */
  lemma VersionsCountLinks(run: seq<State>, k: nat, path: seq<int>)
    requires IsRun(run) && k < |run|
    ensures exists p :: HeadToTail(run[k].heap, p)
    ensures HeadToTail(run[k].heap, path) ==> |path| - 1 == run[k].heap.tail.aba - run[k].heap.head.aba
  {
    RunInv(run, k);
    var h := run[k].heap;
    forall i: nat | i < |h.nodes| ensures NodeOk(h, i) {}
    var p := seq(h.tail.node - h.head.node + 1, i requires 0 <= i => h.head.node + i);
    assert HeadToTail(h, p);
    if HeadToTail(h, path) {
      PathIsInterval(h, path, |path| - 1);
    }
  }

  lemma {:induction false} PathIsInterval(h: Heap, path: seq<int>, i: nat)
    requires Shape(h) && HeadToTail(h, path) && i < |path|
    ensures path[i] == h.head.node + i
  {
    if i > 0 {
      PathIsInterval(h, path, i - 1);
      assert NodeOk(h, path[i - 1]);
      assert h.nodes[path[i - 1]].next.node == path[i - 1 + 1];
      NotNil(h, path, i);
    }
  }

  /** A path that ends at tail never meets the null pointer. */
  lemma NotNil(h: Heap, path: seq<int>, i: nat)
    requires Shape(h) && HeadToTail(h, path) && i < |path|
    ensures path[i] != NIL
  {
    assert i < |path| - 1 ==> 0 <= path[i];
  }

  /** An enqueue that returns has appended its item by exactly one event, and tail has reached its node. */
  lemma EnqueueReturns(run: seq<State>, k: nat, t: nat)
    requires IsRun(run) && k < |run| && t < |run[k].locals| && run[k].locals[t].pc.Return? && run[k].locals[t].enqueue
    ensures var h, l := run[k].heap, run[k].locals[t];
            && l.result.True? && OneEvent(h.log, Added(t, l.op, l.item))
            && l.node <= h.tail.node < |h.nodes| && h.nodes[l.node].value == l.item
  {
    RunInv(run, k);
  }

  /** A dequeue that returns a value has removed it by exactly one event. */
  lemma DequeueReturns(run: seq<State>, k: nat, t: nat)
    requires IsRun(run) && k < |run| && t < |run[k].locals| && run[k].locals[t].pc.Return? && !run[k].locals[t].enqueue
    requires run[k].locals[t].result.TrueValue?
    ensures OneEvent(run[k].heap.log, Removed(t, run[k].locals[t].op, run[k].locals[t].result.value))
  {
    RunInv(run, k);
  }

  lemma SawEmptyStep(h: Heap, u: nat, l: Local, c: Choice)
    ensures var l' := StepThread(h, u, l, c).1;
            l'.sawEmpty ==> l'.op == l.op && (l.sawEmpty || (l.pc.DqReadNext? && Contents(h) == []))
  {
    hide Contents;
  }

  lemma {:induction false} EmptyInstant(run: seq<State>, k: nat, t: nat)
    requires IsRun(run) && k < |run| && t < |run[k].locals| && run[k].locals[t].sawEmpty
    ensures exists i: nat :: i < k && |run[i].locals| == |run[k].locals| && run[i].locals[t].op == run[k].locals[t].op
                             && run[i].locals[t].pc.DqReadNext? && Contents(run[i].heap) == []
  {
    hide Core, LocalInv, StepThread, Contents;
    RunInv(run, k);
    RunInv(run, k - 1);
    var u, c := StepAt(run, k);
    if u == t {
      SawEmptyStep(run[k - 1].heap, t, run[k - 1].locals[t], c);
    }
    if run[k - 1].locals[t].sawEmpty {
      EmptyInstant(run, k - 1, t);
    }
  }

  /** A dequeue that returns false has no event, and the queue was empty when it read `next`. */
  lemma DequeueFalse(run: seq<State>, k: nat, t: nat)
    requires IsRun(run) && k < |run| && t < |run[k].locals| && run[k].locals[t].pc.Return? && !run[k].locals[t].enqueue
    requires !run[k].locals[t].result.TrueValue?
    ensures run[k].locals[t].result.False? && NoEvent(run[k].heap.log, t, run[k].locals[t].op)
    ensures exists i: nat :: i < k && |run[i].locals| == |run[k].locals| && run[i].locals[t].op == run[k].locals[t].op
                             && run[i].locals[t].pc.DqReadNext? && Contents(run[i].heap) == []
  {
    RunInv(run, k);
    EmptyInstant(run, k, t);
  }

  lemma {:induction false} LogGrows(run: seq<State>, i: nat, k: nat)
    requires IsRun(run) && i <= k < |run|
    ensures run[i].heap.log <= run[k].heap.log
    decreases k - i
  {
    hide Core, LocalInv, StepThread, Contents;
    if i < k {
      LogGrows(run, i, k - 1);
      RunInv(run, k - 1);
      var u, c := StepAt(run, k);
      StepInv(run[k - 1], u, c);
      assert Rely(run[k - 1].heap, run[k].heap, u + 1);
    }
  }

  /** The order of the log respects real time: an event that is in the log at instant `i` precedes every
      event of an operation that starts after `i`. */
  lemma RealTimeOrder(run: seq<State>, i: nat, k: nat, a: nat, b: nat)
    requires IsRun(run) && i <= k < |run|
    requires a < |run[i].heap.log| && b < |run[k].heap.log|
    requires run[k].heap.log[b].tid < |run[i].locals|
    requires run[k].heap.log[b].op > run[i].locals[run[k].heap.log[b].tid].op
    ensures a < b && run[k].heap.log[a] == run[i].heap.log[a]
  {
    hide Core;
    LogGrows(run, i, k);
    RunInv(run, i);
    if b < |run[i].heap.log| {
      var t := run[k].heap.log[b].tid;
      assert run[k].heap.log[b] == run[i].heap.log[b];
      EventsSoFar(run[i].heap, t, run[i].locals[t]);
    }
  }

  lemma EventsSoFar(h: Heap, t: nat, l: Local)
    requires LocalInv(h, t, l)
    ensures NoEvent(h.log, t, l.op + 1)
  {
  }

  // ------------------------------------------------------------------ all operations in one history

  /** What an operation that is about to return has done. */
  function Outcome(t: nat, l: Local): Option<Event> {
    if !l.pc.Return? then None
    else if l.enqueue then Some(Added(t, l.op, l.item))
    else if l.result.TrueValue? then Some(Removed(t, l.op, l.result.value))
    else Some(Missed(t, l.op))
  }

  function Over(l: Local): bool {
    l.pc.Idle? || l.pc.Return?
  }

  function Operations(s: State): seq<nat> {
    seq(|s.locals|, t requires 0 <= t < |s.locals| => s.locals[t].op)
  }

  function Ended(s: State): seq<bool> {
    seq(|s.locals|, t requires 0 <= t < |s.locals| => Over(s.locals[t]))
  }

  function Outcomes(s: State): seq<Option<Event>> {
    seq(|s.locals|, t requires 0 <= t < |s.locals| => Outcome(t, s.locals[t]))
  }

  function TraceOf(run: seq<State>): Trace
    requires |run| > 0
  {
    Instants(seq(|run|, k requires 0 <= k < |run| => run[k].heap.log), seq(|run|, k requires 0 <= k < |run| => Contents(run[k].heap)),
             seq(|run|, k requires 0 <= k < |run| => Operations(run[k])), seq(|run|, k requires 0 <= k < |run| => Ended(run[k])),
             seq(|run|, k requires 0 <= k < |run| => Outcomes(run[k])))
  }

  /** An operation that is over stays so, and has one result. */
  lemma OverStep(s: State, u: nat, c: Choice, t: nat)
    requires Inv(s) && u < |s.locals| && t < |s.locals|
    ensures var l, l' := s.locals[t], Step(s, u, c).locals[t];
            && l.op <= l'.op && (Outcome(t, l).Some? ==> Over(l))
            && (Over(l) && l'.op == l.op ==> Over(l') && (Outcome(t, l').None? || Outcome(t, l') == Outcome(t, l)))
  {
    hide Core, LocalInv, Contents;
  }

  lemma TraceStep(run: seq<State>, k: nat)
    requires IsRun(run) && k + 1 < |run|
    ensures StepFrom(TraceOf(run), k)
  {
    hide Core, LocalInv, Contents, StepThread;
    RunInv(run, k);
    var u, c := StepAt(run, k + 1);
    LogGrows(run, k, k + 1);
    hide IsRun;
    var tr := TraceOf(run);
    forall t: nat | t < |tr.ops[k]| ensures ThreadStep(tr, k, t) {
      OverStep(run[k], u, c, t);
    }
  }

  lemma TraceInstant(run: seq<State>, k: nat)
    requires IsRun(run) && k < |run|
    ensures InstantOk(TraceOf(run), true, k)
  {
    hide Core, StepThread, Contents;
    RunInv(run, 0);
    RunInv(run, k);
    var tr := TraceOf(run);
    Linearizable(run, k);
    forall t: nat | t < |tr.ops[k]| ensures NoEvent(tr.logs[k], t, tr.ops[k][t] + 1) {
      EventsSoFar(run[k].heap, t, run[k].locals[t]);
    }
    forall t: nat, e | t < |tr.ops[k]| && Returns(tr, k, t, e) ensures ReturnOk(tr, k, t, e) {
      if e.Missed? {
        var i := FalseInstant(run, k, t);
        assert CurrentAndEmpty(tr, i, t, e.op);
      } else if e.Added? {
        EnqueueReturns(run, k, t);
      } else {
        DequeueReturns(run, k, t);
      }
    }
  }

  lemma FalseInstant(run: seq<State>, k: nat, t: nat) returns (i: nat)
    requires IsRun(run) && k < |run| && t < |run[k].locals| && run[k].locals[t].pc.Return? && !run[k].locals[t].enqueue
    requires !run[k].locals[t].result.TrueValue?
    ensures NoEvent(run[k].heap.log, t, run[k].locals[t].op)
    ensures i < k && |run[i].locals| == |run[k].locals| && run[i].locals[t].op == run[k].locals[t].op && Contents(run[i].heap) == []
  {
    DequeueFalse(run, k, t);
    i :| i < k && |run[i].locals| == |run[k].locals| && run[i].locals[t].op == run[k].locals[t].op && Contents(run[i].heap) == [];
  }

  lemma RunIsTrace(run: seq<State>)
    requires IsRun(run)
    ensures IsTrace(TraceOf(run), true)
  {
    var tr := TraceOf(run);
    forall k: nat | k < |tr.logs| ensures InstantOk(tr, true, k) {
      TraceInstant(run, k);
    }
    hide InstantOk;
    forall k: nat ensures StepFrom(tr, k) {
      if k + 1 < |run| { TraceStep(run, k); }
    }
  }

  /** All operations of a run, those that return false included, are in one history that is legal
      for a FIFO queue and never revised; each takes effect between its start and its return, with
      the result it returns. */
  lemma AllOperations(run: seq<State>) returns (hs: seq<seq<Event>>)
    requires IsRun(run)
    ensures IsHistory(TraceOf(run), true, hs)
  {
    RunIsTrace(run);
    hs := Complete(TraceOf(run), true);
  }
}
