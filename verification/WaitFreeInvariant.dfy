/** What every step of the wait-free queue keeps: an invariant of shared memory, what each thread
    knows at each program counter, and the relation every other thread's steps stay within. */
module WaitFreeInvariant {
  import opened Basics
  import opened Histories
  import opened WaitFreeModel

  // ------------------------------------------------------------------ shared memory

  /** The next pointer of list node `i` names list node `i + 1`. */
  ghost predicate NextOk(h: Heap, i: nat) {
    i < |h.list| && h.list[i] < |h.nodes| ==>
      h.nodes[h.list[i]].next == (if i + 1 < |h.list| then Link(Some(h.list[i + 1]), 1) else Link(None, 0))
  }

  /** A node that has a position is the list node there; any other node has no successor. */
  ghost predicate NodeOk(h: Heap, n: nat) {
    n < |h.nodes| ==>
      if h.nodes[n].pos.Some? then h.nodes[n].pos.value < |h.list| && h.list[h.nodes[n].pos.value] == n
      else h.nodes[n].next == Link(None, 0)
  }

  /** The list is linked in order, version numbers count it, and head <= tail <= last node with at
      most one node beyond tail. */
  ghost predicate Shape(h: Heap) {
    && |h.list| > 0
    && (forall i {:trigger h.list[i]} :: 0 <= i < |h.list| ==>
          h.list[i] < |h.nodes| && h.nodes[h.list[i]].pos == Some(i))
    && (forall i {:trigger NextOk(h, i)} :: 0 <= i < |h.list| ==> NextOk(h, i))
    && (forall n {:trigger NodeOk(h, n)} :: 0 <= n < |h.nodes| ==> NodeOk(h, n))
    && h.head.aba <= h.tail.aba < |h.list| <= h.tail.aba + 2
    && h.head.node == h.list[h.head.aba]
    && h.tail.node == h.list[h.tail.aba]
  }

  ghost predicate Sizes(h: Heap) {
    |h.slots| == |h.ops| == |h.lin| == |h.sawEmpty|
  }

  /** The claimed nodes are those before head, and possibly head itself while it is before tail. */
  ghost predicate Claims(h: Heap)
    requires Shape(h)
  {
    && (forall n {:trigger h.nodes[n].deqTid} :: 0 <= n < |h.nodes| ==>
          && (h.nodes[n].deqTid.Some? ==>
                h.nodes[n].pos.Some? && h.nodes[n].pos.value <= h.head.aba && h.nodes[n].pos.value < h.tail.aba)
          && (h.nodes[n].pos.Some? && h.nodes[n].pos.value < h.head.aba ==> h.nodes[n].deqTid.Some?))
  }

  /** The thread that claimed head has a dequeue that names head. */
  ghost predicate ClaimOwner(h: Heap)
    requires Shape(h) && Sizes(h)
  {
    h.nodes[h.head.node].deqTid.Some? ==>
      var q := h.nodes[h.head.node].deqTid.value;
      && q < |h.slots|
      && h.slots[q].desc.kind.Deq?
      && h.slots[q].desc.node == Some(h.head.node)
  }

  /** The thread whose node lies beyond tail has an enqueue that names the node. */
  ghost predicate Dangling(h: Heap)
    requires Shape(h) && Sizes(h)
  {
    |h.list| == h.tail.aba + 2 ==>
      var n := h.list[h.tail.aba + 1];
      var q := h.nodes[n].enqTid;
      && q < |h.slots|
      && h.slots[q].desc.kind.Enq?
      && h.slots[q].desc.node == Some(n)
  }

  /** The value behind a node: what a dequeue that claimed the node returns. */
  ghost function Behind(h: Heap, n: nat): int
    requires n < |h.nodes|
  {
    if h.nodes[n].pos.Some? && h.nodes[n].pos.value + 1 < |h.list| then
      Deref(h.nodes, h.list[h.nodes[n].pos.value + 1]).data
    else 0
  }

  ghost predicate EnqSlotOk(h: Heap, q: nat)
    requires Shape(h) && Sizes(h) && q < |h.slots|
  {
    var d := h.slots[q].desc;
    match d.node
    case None => !d.pending && d.phase == -1 && h.ops[q] == 0 && h.lin[q] == None
    case Some(n) =>
      && n < |h.nodes|
      && h.nodes[n].enqTid == q
      && d.phase >= 0
      && (!d.pending ==> h.nodes[n].pos.Some?)
      && (d.pending && h.nodes[n].pos.Some? ==> h.nodes[n].pos.value == h.tail.aba + 1)
      && h.lin[q] == (if h.nodes[n].pos.Some? then Some(h.nodes[n].data) else None)
  }

  ghost predicate DeqSlotOk(h: Heap, q: nat)
    requires Shape(h) && Sizes(h) && q < |h.slots|
  {
    var d := h.slots[q].desc;
    && d.phase >= 0
    && match d.node
       case None => h.lin[q] == None && (!d.pending ==> h.sawEmpty[q])
       case Some(m) =>
         && m < |h.nodes|
         && h.nodes[m].pos.Some?
         && h.nodes[m].pos.value <= h.head.aba
         && h.nodes[m].pos.value < h.tail.aba
         && (!d.pending ==> h.nodes[m].deqTid == Some(q))
         && (d.pending && h.nodes[m].deqTid == Some(q) ==> h.nodes[m].pos.value == h.head.aba)
         && h.lin[q] == (if h.nodes[m].deqTid == Some(q) then Some(Behind(h, m)) else None)
  }

  ghost predicate SlotOk(h: Heap, q: nat)
    requires Shape(h) && Sizes(h) && q < |h.slots|
  {
    && h.slots[q].desc.id < h.nextDesc
    && if h.slots[q].desc.kind.Enq? then EnqSlotOk(h, q) else DeqSlotOk(h, q)
  }

  function EventOf(h: Heap, q: nat): Event
    requires q < |h.slots| && q < |h.ops| && q < |h.lin| && h.lin[q].Some?
  {
    if h.slots[q].desc.kind.Enq? then Added(q, h.ops[q], h.lin[q].value)
    else Removed(q, h.ops[q], h.lin[q].value)
  }

  /** The log is a legal sequential history that ends in the present contents; an operation has at
      most one event, and has one exactly once it has linearized. An empty queue is noticed by
      everybody. */
  ghost predicate LogOk(h: Heap)
    requires Sizes(h)
  {
    && ReplayQueue(h.log) == Some(Contents(h))
    && (forall k {:trigger h.log[k]} :: 0 <= k < |h.log| ==>
          && h.log[k].tid < |h.ops|
          && h.log[k].op <= h.ops[h.log[k].tid]
          && (h.log[k].op == h.ops[h.log[k].tid] ==> h.lin[h.log[k].tid].Some?))
    && (forall j, k {:trigger h.log[j], h.log[k]} :: 0 <= j < k < |h.log| ==>
          !(h.log[j].tid == h.log[k].tid && h.log[j].op == h.log[k].op))
    && (forall q {:trigger h.lin[q]} :: 0 <= q < |h.slots| && h.lin[q].Some? ==> EventOf(h, q) in h.log)
    && (Contents(h) == [] ==> forall q {:trigger h.sawEmpty[q]} :: 0 <= q < |h.slots| ==> h.sawEmpty[q])
  }

  ghost predicate Core(h: Heap) {
    && Shape(h)
    && Sizes(h)
    && Claims(h)
    && ClaimOwner(h)
    && Dangling(h)
    && (forall q {:trigger SlotOk(h, q)} :: 0 <= q < |h.slots| ==> SlotOk(h, q))
  }

  ghost predicate HeapInv(h: Heap) {
    Core(h) && LogOk(h)
  }

  lemma AtSlot(h: Heap, q: nat)
    requires Core(h) && q < |h.slots|
    ensures SlotOk(h, q)
  {
  }

  lemma AtNode(h: Heap, n: nat)
    requires Shape(h)
    ensures NodeOk(h, n)
  {
  }

  lemma AtList(h: Heap, i: nat)
    requires Shape(h)
    ensures NextOk(h, i)
  {
  }

  // ------------------------------------------------------------------ what a thread knows

  ghost predicate PosAtMost(h: Heap, n: nat, bound: int) {
    n < |h.nodes| && h.nodes[n].pos.Some? && h.nodes[n].pos.value <= bound
  }

  /** Thread `t` has no operation in progress: its last node is not beyond tail, and the node it
      last claimed is behind head. */
  ghost predicate Quiet(h: Heap, t: nat) {
    && t < |h.slots|
    && !h.slots[t].desc.pending
    && (h.slots[t].desc.node.Some? ==>
          PosAtMost(h, h.slots[t].desc.node.value,
                    if h.slots[t].desc.kind.Enq? then h.tail.aba else h.head.aba - 1))
  }

  /** Thread `t` is between publication and return. */
  ghost predicate Published(h: Heap, t: nat, l: Local) {
    && t < |h.slots|
    && h.slots[t].desc.phase == l.phase
    && h.slots[t].desc.kind == l.kind
    && (l.kind.Enq? ==>
          && l.node.Some? && l.node.value < |h.nodes| && h.slots[t].desc.node == l.node
          && h.nodes[l.node.value].data == l.item)
    && (l.i > t ==> !h.slots[t].desc.pending)
  }

  /** Thread `t` is inside help_enqueue or help_dequeue for `l.tid`. */
  ghost predicate Helping(h: Heap, t: nat, l: Local, k: Kind) {
    && Published(h, t, l)
    && l.tid == l.i < |h.slots|
    && l.tid < |h.ops|
    && (h.ops[l.tid] == l.seen ==> h.slots[l.tid].desc.kind == k)
  }

  /** A pointer read from head or tail earlier. */
  ghost predicate WasAt(h: Heap, p: Ptr, bound: nat) {
    p.aba <= bound && p.aba < |h.list| && h.list[p.aba] == p.node
  }

  /** A next pointer read from the node at `p`. */
  ghost predicate NextOf(h: Heap, p: Ptr, next: Link) {
    next.value.Some? ==> p.aba + 1 < |h.list| && next.value == Some(h.list[p.aba + 1])
  }

  /** The tail node read earlier is still last only if the helped enqueue is still not linked. */
  ghost predicate Unlinked(h: Heap, q: nat) {
    && q < |h.slots|
    && h.slots[q].desc.pending
    && h.slots[q].desc.kind.Enq?
    && h.slots[q].desc.node.Some?
    && h.slots[q].desc.node.value < |h.nodes|
    && h.nodes[h.slots[q].desc.node.value].pos.None?
  }

  ghost predicate TailRead(h: Heap, l: Local) {
    WasAt(h, l.tailOld, h.tail.aba)
  }

  ghost predicate HeadRead(h: Heap, l: Local) {
    WasAt(h, l.headOld, h.head.aba)
  }

  /** In a help_finish_enqueue that has to make sure that the thread's own node is behind tail. */
  ghost predicate OwnLinked(h: Heap, t: nat, l: Local) {
    (l.ret.ToFinish? || (l.ret.ToHelp? && l.tid == t)) ==>
      && l.kind.Enq?
      && l.node.Some? && l.node.value < |h.nodes| && h.nodes[l.node.value].pos.Some?
  }

  ghost predicate OwnNear(h: Heap, t: nat, l: Local) {
    (l.ret.ToFinish? || (l.ret.ToHelp? && l.tid == t)) ==>
      && l.kind.Enq?
      && l.node.Some? && PosAtMost(h, l.node.value, l.tailOld.aba + 1)
  }

  /** The context help_finish_enqueue and help_finish_dequeue return to. */
  ghost predicate FinishContext(h: Heap, t: nat, l: Local) {
    match l.ret
    case ToHelp => Published(h, t, l) && l.tid == l.i < |h.slots|
    case ToEnqLoop => Helping(h, t, l, Enq)
    case ToDeqLoop => Helping(h, t, l, Deq)
    case ToFinish => Published(h, t, l) && t < l.i
  }

  ghost predicate FEContext(h: Heap, t: nat, l: Local) {
    FinishContext(h, t, l) && OwnLinked(h, t, l)
  }

  ghost predicate FENext(h: Heap, t: nat, l: Local) {
    && FEContext(h, t, l) && TailRead(h, l) && OwnNear(h, t, l)
    && l.next.value.Some? && NextOf(h, l.tailOld, l.next)
    && l.next.value.value < |h.nodes|
    && l.ftid == h.nodes[l.next.value.value].enqTid
  }

  /** While tail has not moved, the descriptor read is the one of the node beyond tail, and it is
      still in place unless that enqueue has been completed. */
  ghost predicate FEState(h: Heap, t: nat, l: Local) {
    && FENext(h, t, l)
    && l.cur.desc.id < h.nextDesc
    && (h.tail.aba > l.tailOld.aba
        || (&& l.ftid < |h.slots|
            && l.cur.desc.kind.Enq? && l.cur.desc.node == l.next.value
            && (h.slots[l.ftid] == l.cur || !h.slots[l.ftid].desc.pending)))
  }

  ghost predicate FEChecked(h: Heap, t: nat, l: Local) {
    && FEState(h, t, l)
    && l.ftid < |h.slots|
    && l.cur.desc.kind.Enq? && l.cur.desc.node == l.next.value
  }

  /** The node named by a descriptor is behind `p`. */
  ghost predicate NamesBehind(h: Heap, d: Desc, p: Ptr) {
    d.kind.Deq? && d.node.Some? ==> PosAtMost(h, d.node.value, p.aba - 1)
  }

  ghost predicate HDHead(h: Heap, t: nat, l: Local) {
    Helping(h, t, l, Deq) && HeadRead(h, l)
  }

  ghost predicate HDTail(h: Heap, t: nat, l: Local) {
    HDHead(h, t, l) && TailRead(h, l) && l.headOld.aba <= l.tailOld.aba
  }

  /** The helped dequeue has seen an empty queue, or it is over. */
  ghost predicate EmptySeen(h: Heap, l: Local) {
    l.tid < |h.ops| && l.tid < |h.sawEmpty| && (h.ops[l.tid] == l.seen ==> h.sawEmpty[l.tid])
  }

  ghost predicate HDNext(h: Heap, t: nat, l: Local) {
    && HDTail(h, t, l) && NextOf(h, l.headOld, l.next)
    && (l.next.value.None? ==> h.head.aba > l.headOld.aba || EmptySeen(h, l))
  }

  ghost predicate HDEmpty(h: Heap, t: nat, l: Local) {
    && HDTail(h, t, l) && l.headOld.aba == l.tailOld.aba && EmptySeen(h, l)
    && l.cur.desc.id < h.nextDesc
  }

  ghost predicate HDEmptyChecked(h: Heap, t: nat, l: Local) {
    HDEmpty(h, t, l) && NamesBehindIfCurrent(h, l)
  }

  ghost predicate NamesBehindIfCurrent(h: Heap, l: Local) {
    l.tid < |h.slots| && h.slots[l.tid] == l.cur ==> NamesBehind(h, l.cur.desc, l.headOld)
  }

  ghost predicate StillPending(h: Heap, l: Local) {
    l.tid < |h.slots| && h.slots[l.tid] == l.cur ==> l.cur.desc.pending
  }

  ghost predicate StillSeen(h: Heap, l: Local) {
    l.tid < |h.slots| && l.tid < |h.ops| && h.slots[l.tid] == l.cur ==>
      l.cur.desc.pending && h.ops[l.tid] == l.seen
  }

  ghost predicate PhaseRead(h: Heap, q: nat, l: Local) {
    q < |h.slots| && h.slots[q] == l.cur ==> l.newPhase == l.cur.desc.phase
  }

  /** The head read earlier is still unclaimed only if the helped dequeue still names it. */
  ghost predicate NamesHead(h: Heap, l: Local) {
    && l.headOld.node < |h.nodes| && l.tid < |h.slots| && l.tid < |h.ops|
    && (h.nodes[l.headOld.node].deqTid.None? ==>
          h.ops[l.tid] == l.seen && h.slots[l.tid].desc.kind.Deq? && h.slots[l.tid].desc.pending
          && h.slots[l.tid].desc.node == Some(l.headOld.node))
  }

  /** NamesHead, as far as it is known before the second check that the operation is pending. */
  ghost predicate MayNameHead(h: Heap, l: Local) {
    && l.headOld.node < |h.nodes| && l.tid < |h.slots| && l.tid < |h.ops|
    && (h.nodes[l.headOld.node].deqTid.None? && h.ops[l.tid] == l.seen
        && l.cur.desc.node == Some(l.headOld.node) ==>
          h.slots[l.tid].desc.kind.Deq? && h.slots[l.tid].desc.pending
          && h.slots[l.tid].desc.node == Some(l.headOld.node))
  }

  ghost predicate HDNonEmpty(h: Heap, t: nat, l: Local) {
    HDTail(h, t, l) && l.headOld.aba < l.tailOld.aba
  }

  ghost predicate HDStateRead(h: Heap, t: nat, l: Local) {
    HDNonEmpty(h, t, l) && l.cur.desc.id < h.nextDesc && MayNameHead(h, l)
  }

  /** The helped operation was pending a moment ago: either it still is the same one, or the head
      read earlier has been claimed. */
  ghost predicate HDPendingChecked(h: Heap, t: nat, l: Local) {
    && HDStateRead(h, t, l) && StillSeen(h, l)
    && (l.cur.desc.node == Some(l.headOld.node) ==> NamesHead(h, l))
  }

  /** The head read earlier is not a node this dequeue has claimed already. */
  ghost predicate FreshClaim(h: Heap, l: Local) {
    l.headOld.node < |h.nodes| && l.tid < |h.slots| && h.slots[l.tid] == l.cur ==>
      h.nodes[l.headOld.node].deqTid != Some(l.tid)
  }

  ghost predicate HDInstall(h: Heap, t: nat, l: Local) {
    && HDNonEmpty(h, t, l) && l.cur.desc.id < h.nextDesc && StillSeen(h, l)
    && NamesBehindIfCurrent(h, l) && FreshClaim(h, l)
  }

  /** In the help_finish_dequeue at the end of dequeue: the node the thread claimed is at most the
      head read. */
  ghost predicate OwnClaimNear(h: Heap, t: nat, l: Local) {
    l.ret.ToFinish? && t < |h.slots| && h.slots[t].desc.node.Some? ==>
      PosAtMost(h, h.slots[t].desc.node.value, l.headOld.aba)
  }

  ghost predicate FDContext(h: Heap, t: nat, l: Local) {
    FinishContext(h, t, l) && (l.ret.ToDeqLoop? || (l.ret.ToFinish? && l.kind.Deq?))
  }

  ghost predicate FDHead(h: Heap, t: nat, l: Local) {
    FDContext(h, t, l) && HeadRead(h, l) && OwnClaimNear(h, t, l)
  }

  ghost predicate FDNext(h: Heap, t: nat, l: Local) {
    && FDHead(h, t, l) && NextOf(h, l.headOld, l.next)
    && (l.ret.ToFinish? && t < |h.slots| && h.slots[t].desc.node.Some? && l.next.value.None? ==>
          PosAtMost(h, h.slots[t].desc.node.value, l.headOld.aba - 1))
  }

  ghost predicate FDTid(h: Heap, t: nat, l: Local) {
    && FDNext(h, t, l)
    && l.headOld.node < |h.nodes|
    && h.nodes[l.headOld.node].deqTid == Some(l.ftid)
  }

  /** While head has not moved, the descriptor read is the one of head's claimant, and it is still
      in place unless that dequeue has been completed. */
  ghost predicate FDState(h: Heap, t: nat, l: Local) {
    && FDTid(h, t, l)
    && l.cur.desc.id < h.nextDesc
    && (h.head.aba > l.headOld.aba
        || (&& l.ftid < |h.slots|
            && l.cur.desc.kind.Deq? && l.cur.desc.node == Some(l.headOld.node)
            && (h.slots[l.ftid] == l.cur || !h.slots[l.ftid].desc.pending)))
  }

  ghost predicate FDChecked(h: Heap, t: nat, l: Local) {
    && FDState(h, t, l)
    && l.ftid < |h.slots|
    && l.cur.desc.kind.Deq? && l.cur.desc.node == Some(l.headOld.node)
    && l.next.value.Some?
  }

  ghost predicate Scanning(h: Heap, t: nat, l: Local) {
    && Quiet(h, t)
    && l.max >= -1
    && (l.i > t ==> l.max >= h.slots[t].desc.phase)
  }

  ghost predicate Ready(h: Heap, t: nat, l: Local) {
    Quiet(h, t) && l.phase > h.slots[t].desc.phase && l.phase >= 0
  }

  /** The state of a dequeue whose descriptor is final and whose claimed node is behind head. */
  ghost predicate DeqDone(h: Heap, t: nat, l: Local) {
    && Published(h, t, l) && Quiet(h, t) && l.kind.Deq?
  }

  ghost predicate Returning(h: Heap, t: nat, l: Local) {
    && Published(h, t, l) && Quiet(h, t)
    && match l.kind
       case Enq => l.result.True? && l.node.Some? && PosAtMost(h, l.node.value, h.tail.aba)
       case Deq =>
         if h.slots[t].desc.node.None? then l.result.False?
         else
           && h.slots[t].desc.node.value < |h.nodes|
           && l.result == TrueValue(Behind(h, h.slots[t].desc.node.value))
  }

  ghost predicate OuterInv(h: Heap, t: nat, l: Local) {
    match l.pc
    case Idle => Quiet(h, t)
    case Scan => Scanning(h, t, l)
    case ReadAba | Publish => Ready(h, t, l)
    case HelpScan => Published(h, t, l)
    case DeqReadNode => DeqDone(h, t, l)
    case DeqReadNext => DeqDone(h, t, l) && l.newNode == h.slots[t].desc.node && l.newNode.Some?
    case Return => Returning(h, t, l)
    case _ => false
  }

  ghost predicate HelpEnqueueInv(h: Heap, t: nat, l: Local) {
    match l.pc
    case HEPending | HEPhase | HEReadTail => Helping(h, t, l, Enq)
    case HEReadNext => Helping(h, t, l, Enq) && TailRead(h, l)
    case HECheckTail =>
      Helping(h, t, l, Enq) && TailRead(h, l) && (l.next.value.None? ==> l.next == Link(None, 0))
    case HEPending2 =>
      Helping(h, t, l, Enq) && TailRead(h, l) && l.next == Link(None, 0)
    case HEPhase2 =>
      && Helping(h, t, l, Enq) && TailRead(h, l) && l.next == Link(None, 0)
      && (h.ops[l.tid] > l.seen || |h.list| > l.tailOld.aba + 1 || Unlinked(h, l.tid))
    case HEReadNode =>
      && Helping(h, t, l, Enq) && TailRead(h, l) && l.next == Link(None, 0)
      && (|h.list| > l.tailOld.aba + 1 || (h.ops[l.tid] == l.seen && Unlinked(h, l.tid)))
    case HECas =>
      && Helping(h, t, l, Enq) && TailRead(h, l) && l.next == Link(None, 0)
      && (|h.list| > l.tailOld.aba + 1
          || (h.ops[l.tid] == l.seen && Unlinked(h, l.tid) && l.newNode == h.slots[l.tid].desc.node))
    case _ => false
  }

  ghost predicate FinishEnqueueInv(h: Heap, t: nat, l: Local) {
    match l.pc
    case FEReadTail => FEContext(h, t, l)
    case FEReadNext => FEContext(h, t, l) && TailRead(h, l) && OwnNear(h, t, l)
    case FEReadState => FENext(h, t, l)
    case FECheckTail => FEState(h, t, l)
    case FECheckNode | FEReadPhase => FEChecked(h, t, l)
    case FECasState => FEChecked(h, t, l) && PhaseRead(h, l.ftid, l)
    case FECasTail =>
      && FENext(h, t, l)
      && (h.tail.aba > l.tailOld.aba || (l.ftid < |h.slots| && !h.slots[l.ftid].desc.pending))
    case _ => false
  }

  ghost predicate HelpDequeueInv(h: Heap, t: nat, l: Local) {
    match l.pc
    case HDPending | HDPhase | HDReadHead => Helping(h, t, l, Deq)
    case HDReadTail => HDHead(h, t, l)
    case HDReadNext => HDTail(h, t, l)
    case HDCheckHead => HDNext(h, t, l)
    case HDEmptyState => HDTail(h, t, l) && l.headOld.aba == l.tailOld.aba && EmptySeen(h, l)
    case HDEmptyTail => HDEmpty(h, t, l)
    case HDEmptyPending => HDEmptyChecked(h, t, l)
    case HDEmptyPhase => HDEmptyChecked(h, t, l) && StillPending(h, l)
    case HDEmptyReadPhase => HDEmptyChecked(h, t, l) && StillSeen(h, l)
    case HDEmptyCas => HDEmptyChecked(h, t, l) && StillSeen(h, l) && PhaseRead(h, l.tid, l)
    case HDState => HDNonEmpty(h, t, l)
    case HDPending2 => HDStateRead(h, t, l)
    case HDPhase2 => HDStateRead(h, t, l) && StillPending(h, l)
    case HDCheckHead2 => HDPendingChecked(h, t, l)
    case HDReadPhase => HDInstall(h, t, l)
    case HDCasState => HDInstall(h, t, l) && PhaseRead(h, l.tid, l)
    case HDCasDeqTid => HDNonEmpty(h, t, l) && NamesHead(h, l)
    case _ => false
  }

  ghost predicate FinishDequeueInv(h: Heap, t: nat, l: Local) {
    match l.pc
    case FDReadHead => FDContext(h, t, l)
    case FDReadNext => FDHead(h, t, l)
    case FDReadDeqTid => FDNext(h, t, l)
    case FDReadState => FDTid(h, t, l)
    case FDCheckHead => FDState(h, t, l)
    case FDReadPhase => FDChecked(h, t, l)
    case FDReadNode => FDChecked(h, t, l) && PhaseRead(h, l.ftid, l)
    case FDCasState =>
      && FDChecked(h, t, l) && PhaseRead(h, l.ftid, l)
      && (h.slots[l.ftid] == l.cur ==> l.newNode == l.cur.desc.node)
    case FDCasHead =>
      && FDTid(h, t, l) && l.next.value.Some?
      && (h.head.aba > l.headOld.aba || (l.ftid < |h.slots| && !h.slots[l.ftid].desc.pending))
    case _ => false
  }

  /** What thread `t` knows at its program counter. */
  ghost predicate LocalInv(h: Heap, t: nat, l: Local) {
    if InHelpEnqueue(l.pc) then HelpEnqueueInv(h, t, l)
    else if InFinishEnqueue(l.pc) then FinishEnqueueInv(h, t, l)
    else if InHelpDequeue(l.pc) then HelpDequeueInv(h, t, l)
    else if InFinishDequeue(l.pc) then FinishDequeueInv(h, t, l)
    else OuterInv(h, t, l)
  }

  // ------------------------------------------------------------------ phases

  /** Thread is helping `l.tid`. */
  predicate IsHelping(l: Local) {
    || InHelpEnqueue(l.pc) || InHelpDequeue(l.pc)
    || ((InFinishEnqueue(l.pc) || InFinishDequeue(l.pc)) && !l.ret.ToFinish?)
  }

  /** The helped operation has phase at most `l.phase`; any later one of that thread has more. */
  ghost predicate PhaseKnown(h: Heap, l: Local) {
    IsHelping(l) && l.tid < |h.slots| && l.tid < |h.ops| ==>
      && l.seen <= h.ops[l.tid]
      && if h.ops[l.tid] == l.seen then h.slots[l.tid].desc.phase <= l.phase
         else h.slots[l.tid].desc.phase > l.phase
  }

  /** A thread about to publish already knows a phase of at least `phase`, once it has read
      thread `u`'s slot. */
  ghost predicate ScanCovers(lq: Local, u: nat, phase: int) {
    && (lq.pc.Scan? && lq.i > u ==> lq.max >= phase)
    && (lq.pc.ReadAba? || lq.pc.Publish? ==> lq.phase > phase)
  }

  ghost predicate PhaseInv(s: State) {
    && (forall u {:trigger s.locals[u]} :: 0 <= u < |s.locals| ==> PhaseKnown(s.heap, s.locals[u]))
    && (forall u {:trigger s.locals[u]} :: 0 <= u < |s.locals| ==>
          IsHelping(s.locals[u]) && s.locals[u].tid < |s.locals| && s.locals[u].tid < |s.heap.ops|
          && s.heap.ops[s.locals[u].tid] == s.locals[u].seen ==>
            ScanCovers(s.locals[s.locals[u].tid], u, s.locals[u].phase))
  }

  ghost predicate Inv(s: State) {
    && |s.locals| == |s.heap.slots|
    && HeapInv(s.heap)
    && (forall u {:trigger s.locals[u]} :: 0 <= u < |s.locals| ==> LocalInv(s.heap, u, s.locals[u]))
    && PhaseInv(s)
  }

  // ------------------------------------------------------------------ what the others may do

  /** The slot of a thread while its operation stays the same one. */
  ghost predicate SameOp(h: Heap, h': Heap, q: nat)
    requires q < |h.slots| == |h'.slots| && Sizes(h) && Sizes(h')
  {
    var d, d' := h.slots[q].desc, h'.slots[q].desc;
    && (h.sawEmpty[q] ==> h'.sawEmpty[q])
    && (h'.slots[q] == h.slots[q]
        || (&& d'.id >= h.nextDesc
            && d'.kind == d.kind
            && d'.phase == d.phase
            && (d'.pending ==> d.pending)
            && ((d'.node == d.node && !d'.pending)
                || (d.kind.Deq? && d.pending && (d.node.Some? ==> PosAtMost(h, d.node.value, h.head.aba - 1))))))
  }

  /** Thread `q` publishes its next operation. */
  ghost predicate NewOp(h: Heap, h': Heap, q: nat)
    requires q < |h.slots| == |h'.slots| && Sizes(h) && Sizes(h')
  {
    && Quiet(h, q)
    && h'.ops[q] == h.ops[q] + 1
    && h'.slots[q].desc.id >= h.nextDesc
    && h'.slots[q].desc.phase > h.slots[q].desc.phase
  }

  ghost predicate SlotStep(h: Heap, h': Heap, q: nat)
    requires q < |h.slots| == |h'.slots| && Sizes(h) && Sizes(h')
  {
    if h'.ops[q] == h.ops[q] then SameOp(h, h', q) else NewOp(h, h', q)
  }

  /** A node is claimed only for a thread whose descriptor names it. */
  ghost predicate ClaimStep(h: Heap, h': Heap, n: nat)
    requires n < |h.nodes| && n < |h'.nodes|
  {
    h.nodes[n].deqTid.None? && h'.nodes[n].deqTid.Some? ==>
      var q := h'.nodes[n].deqTid.value;
      q < |h.slots| && h.slots[q].desc.node == Some(n)
  }

  ghost predicate NodesGrow(h: Heap, h': Heap) {
    && |h.nodes| <= |h'.nodes|
    && (forall n {:trigger h'.nodes[n]} {:trigger h.nodes[n]} :: 0 <= n < |h.nodes| ==>
          && h'.nodes[n].data == h.nodes[n].data
          && h'.nodes[n].enqTid == h.nodes[n].enqTid
          && (h.nodes[n].pos.Some? ==> h'.nodes[n].pos == h.nodes[n].pos)
          && (h.nodes[n].deqTid.Some? ==> h'.nodes[n].deqTid == h.nodes[n].deqTid)
          && ClaimStep(h, h', n))
    && |h.list| <= |h'.list|
    && h.list == h'.list[..|h.list|]
  }

  /** The steps of all threads stay within this relation. */
  ghost predicate Rely(h: Heap, h': Heap) {
    && Sizes(h) && Sizes(h') && |h'.slots| == |h.slots|
    && NodesGrow(h, h')
    && h.head.aba <= h'.head.aba
    && h.tail.aba <= h'.tail.aba
    && h.nextDesc <= h'.nextDesc
    && (forall q {:trigger SlotStep(h, h', q)} :: 0 <= q < |h.slots| ==> SlotStep(h, h', q))
  }
}
