/** The Kogan-Petrank wait-free queue as an interleaved step machine.

    Every thread has a program counter and its C++ locals; one step of a thread is one read,
    write or CAS of a shared word. Memory is sequentially consistent. Private memory (a node or a
    descriptor nobody else can see yet) is allocated in the step that publishes it.

    The fields after `nextDesc` are history: no step reads them to decide what to do. */
module WaitFreeModel {
  import opened Basics
  import opened Histories

  datatype Kind = Enq | Deq

  /** A version-stamped `next` pointer. */
  datatype Link = Link(value: Option<nat>, aba: nat)

  /** A list node. `deqTid` is None for kTidNotSet. `pos` is history: the index the node got when
      it was linked. */
  datatype Node = Node(data: int, next: Link, enqTid: nat, deqTid: Option<nat>, pos: Option<nat>)

  /** An immutable operation descriptor; `id` is its address. */
  datatype Desc = Desc(id: nat, phase: int, pending: bool, kind: Kind, node: Option<nat>)

  /** The version-stamped descriptor pointer of one thread. */
  datatype Slot = Slot(desc: Desc, aba: nat)

  /** The version-stamped `head_` or `tail_` pointer. */
  datatype Ptr = Ptr(node: nat, aba: nat)

  datatype Heap = Heap(
    nodes: seq<Node>, head: Ptr, tail: Ptr, slots: seq<Slot>, nextDesc: nat,
    list: seq<nat>,           // every node ever linked, in order
    ops: seq<nat>,            // how many operations each thread has published
    lin: seq<Option<int>>,    // the value the current operation of a thread linearized with
    sawEmpty: seq<bool>,      // whether the queue was empty at some instant since that publication
    log: seq<Event>)          // all linearization events

  datatype PC =
    | Idle | Scan | ReadAba | Publish | HelpScan
    // help_enqueue
    | HEPending | HEPhase | HEReadTail | HEReadNext | HECheckTail
    | HEPending2 | HEPhase2 | HEReadNode | HECas
    // help_finish_enqueue
    | FEReadTail | FEReadNext | FEReadState | FECheckTail | FECheckNode
    | FEReadPhase | FECasState | FECasTail
    // help_dequeue
    | HDPending | HDPhase | HDReadHead | HDReadTail | HDReadNext | HDCheckHead
    | HDEmptyState | HDEmptyTail | HDEmptyPending | HDEmptyPhase | HDEmptyReadPhase | HDEmptyCas
    | HDState | HDPending2 | HDPhase2 | HDCheckHead2 | HDReadPhase | HDCasState | HDCasDeqTid
    // help_finish_dequeue
    | FDReadHead | FDReadNext | FDReadDeqTid | FDReadState | FDCheckHead
    | FDReadPhase | FDReadNode | FDCasState | FDCasHead
    // the end of dequeue, and the return of either operation
    | DeqReadNode | DeqReadNext | Return

  /** Where a call of help_finish_enqueue or help_finish_dequeue returns to. */
  datatype Ret = ToHelp | ToEnqLoop | ToDeqLoop | ToFinish

  datatype Result = NoResult | True | TrueValue(value: int) | False

  /** The locals of one thread. `seen` is history: the number of the operation this thread saw
      pending when it started to help `tid`. */
  datatype Local = Local(
    pc: PC, kind: Kind, item: int, phase: int, node: Option<nat>, i: nat, max: int, aba: nat,
    tid: nat, seen: nat, ret: Ret, headOld: Ptr, tailOld: Ptr, next: Link, ftid: nat, cur: Slot,
    newPhase: int, newNode: Option<nat>, result: Result)

  datatype State = State(heap: Heap, locals: seq<Local>)

  /** The operation an idle thread starts. */
  datatype Choice = StartEnqueue(item: int) | StartDequeue

  const NO_NODE := Node(0, Link(None, 0), 0, None, None)
  const NO_SLOT := Slot(Desc(0, -1, false, Enq, None), 0)

  /** The node at an address. Outside memory the result is unspecified; the invariant shows that
      no step looks there. */
  function Deref(nodes: seq<Node>, n: nat): Node {
    if n < |nodes| then nodes[n] else NO_NODE
  }

  function SlotOf(h: Heap, tid: nat): Slot {
    if tid < |h.slots| then h.slots[tid] else NO_SLOT
  }

  function SetSlot(h: Heap, tid: nat, d: Desc, aba: nat): Heap {
    if tid < |h.slots| then h.(slots := h.slots[tid := Slot(d, aba)], nextDesc := h.nextDesc + 1) else h
  }

  // ------------------------------------------------------------------ the abstract queue

  /** The index of the first list node whose value is still in the queue: the head's value is
      gone, and so is its successor's once the head has been claimed. */
  function FirstLive(h: Heap): nat {
    h.head.aba + (if Deref(h.nodes, h.head.node).deqTid.Some? then 2 else 1)
  }

  function Values(nodes: seq<Node>, ids: seq<nat>): (r: seq<int>)
    ensures |r| == |ids|
  {
    seq(|ids|, i requires 0 <= i < |ids| => Deref(nodes, ids[i]).data)
  }

  /** The abstract contents of the queue, oldest first. */
  function Contents(h: Heap): seq<int> {
    if FirstLive(h) <= |h.list| then Values(h.nodes, h.list[FirstLive(h)..]) else []
  }

  // ------------------------------------------------------------------ writes to shared memory

  /** The write of `set_raw` in enqueue and dequeue: a new operation becomes visible. */
  function PublishOp(h: Heap, t: nat, l: Local): Heap {
    var n := |h.nodes|;
    var nodes := if l.kind.Enq? then h.nodes + [Node(l.item, Link(None, 0), t, None, None)] else h.nodes;
    var node := if l.kind.Enq? then Some(n) else None;
    if t < |h.slots| && t < |h.ops| && t < |h.lin| && t < |h.sawEmpty| then
      SetSlot(h, t, Desc(h.nextDesc, l.phase, true, l.kind, node), l.aba + 1).(
        nodes := nodes,
        ops := h.ops[t := h.ops[t] + 1],
        lin := h.lin[t := None],
        sawEmpty := h.sawEmpty[t := Contents(h) == []])
    else h
  }

  /** A successful CAS of `next` in help_enqueue; on behalf of thread `q`. */
  function LinkNode(h: Heap, at: nat, link: Link, q: nat): Heap {
    if at < |h.nodes| && q < |h.lin| && q < |h.ops| && link.value.Some? && link.value.value < |h.nodes| then
      var n := link.value.value;
      var nodes := h.nodes[at := h.nodes[at].(next := link)];
      h.(nodes := nodes[n := nodes[n].(pos := Some(|h.list|))],
         list := h.list + [n],
         lin := h.lin[q := Some(h.nodes[n].data)],
         log := h.log + [Added(q, h.ops[q], h.nodes[n].data)])
    else if at < |h.nodes| then h.(nodes := h.nodes[at := h.nodes[at].(next := link)])
    else h
  }

  /** A successful CAS of `deq_tid` in help_dequeue: node `at` is claimed for thread `q`. */
  function ClaimNode(h: Heap, at: nat, q: nat): Heap {
    if at < |h.nodes| && q < |h.lin| && q < |h.ops| && h.nodes[at].next.value.Some? then
      var v := Deref(h.nodes, h.nodes[at].next.value.value).data;
      var h1 := h.(nodes := h.nodes[at := h.nodes[at].(deqTid := Some(q))],
                   lin := h.lin[q := Some(v)],
                   log := h.log + [Removed(q, h.ops[q], v)]);
      h1.(sawEmpty := seq(|h.sawEmpty|, i requires 0 <= i < |h.sawEmpty| =>
                            h.sawEmpty[i] || Contents(h1) == []))
    else if at < |h.nodes| then h.(nodes := h.nodes[at := h.nodes[at].(deqTid := Some(q))])
    else h
  }

  // ------------------------------------------------------------------ the steps

  /** Return from help_finish_enqueue. */
  function AfterFinishEnq(l: Local): Local {
    match l.ret
    case ToHelp => l.(pc := HelpScan, i := l.i + 1)
    case ToEnqLoop => l.(pc := HEPending)
    case ToDeqLoop => l.(pc := HDPending)
    case ToFinish => l.(pc := Return, result := True)
  }

  /** Return from help_finish_dequeue. */
  function AfterFinishDeq(l: Local): Local {
    if l.ret.ToFinish? then l.(pc := DeqReadNode) else l.(pc := HDPending)
  }

  /** max_phase, the publication of the descriptor, and the loop of help. */
  function StepOuter(h: Heap, t: nat, l: Local, c: Choice): (Heap, Local) {
    match l.pc
    case Idle =>
      (h, match c
          case StartEnqueue(x) => l.(pc := Scan, kind := Enq, item := x, i := 0, max := -1, result := NoResult)
          case StartDequeue => l.(pc := Scan, kind := Deq, i := 0, max := -1, result := NoResult))
    case Scan =>
      if l.i < |h.slots| then
        var phase := h.slots[l.i].desc.phase;
        (h, l.(i := l.i + 1, max := if phase > l.max then phase else l.max))
      else (h, l.(pc := ReadAba, phase := l.max + 1))
    case ReadAba => (h, l.(pc := Publish, aba := SlotOf(h, t).aba))
    case Publish =>
      (PublishOp(h, t, l),
       l.(pc := HelpScan, i := 0, node := if l.kind.Enq? then Some(|h.nodes|) else None))
    case HelpScan =>
      if l.i < |h.slots| then
        var d := h.slots[l.i].desc;
        if d.pending && d.phase <= l.phase then
          (h, l.(pc := if d.kind.Enq? then HEPending else HDPending, tid := l.i,
                 seen := if l.i < |h.ops| then h.ops[l.i] else 0))
        else (h, l.(i := l.i + 1))
      else (h, l.(pc := if l.kind.Enq? then FEReadTail else FDReadHead, ret := ToFinish))
    case DeqReadNode =>
      var node := SlotOf(h, t).desc.node;
      if node.None? then (h, l.(pc := Return, newNode := None, result := False))
      else (h, l.(pc := DeqReadNext, newNode := node))
    case DeqReadNext =>
      var next := if l.newNode.Some? then Deref(h.nodes, l.newNode.value).next.value else None;
      (h, l.(pc := Return,
             result := TrueValue(if next.Some? then Deref(h.nodes, next.value).data else 0)))
    case Return => (h, l.(pc := Idle))
    case _ => (h, l)
  }

  function StepHelpEnqueue(h: Heap, t: nat, l: Local): (Heap, Local) {
    match l.pc
    case HEPending =>
      if SlotOf(h, l.tid).desc.pending then (h, l.(pc := HEPhase)) else (h, l.(pc := HelpScan, i := l.i + 1))
    case HEPhase =>
      if SlotOf(h, l.tid).desc.phase <= l.phase then (h, l.(pc := HEReadTail))
      else (h, l.(pc := HelpScan, i := l.i + 1))
    case HEReadTail => (h, l.(pc := HEReadNext, tailOld := h.tail))
    case HEReadNext => (h, l.(pc := HECheckTail, next := Deref(h.nodes, l.tailOld.node).next))
    case HECheckTail =>
      if h.tail != l.tailOld then (h, l.(pc := HEPending))
      else if l.next.value.None? then (h, l.(pc := HEPending2))
      else (h, l.(pc := FEReadTail, ret := ToEnqLoop))
    case HEPending2 =>
      if SlotOf(h, l.tid).desc.pending then (h, l.(pc := HEPhase2)) else (h, l.(pc := HEPending))
    case HEPhase2 =>
      if SlotOf(h, l.tid).desc.phase <= l.phase then (h, l.(pc := HEReadNode)) else (h, l.(pc := HEPending))
    case HEReadNode => (h, l.(pc := HECas, newNode := SlotOf(h, l.tid).desc.node))
    case HECas =>
      if Deref(h.nodes, l.tailOld.node).next == l.next then
        (LinkNode(h, l.tailOld.node, Link(l.newNode, l.next.aba + 1), l.tid),
         l.(pc := FEReadTail, ret := ToHelp))
      else (h, l.(pc := HEPending))
    case _ => (h, l)
  }

  function StepFinishEnqueue(h: Heap, t: nat, l: Local): (Heap, Local) {
    match l.pc
    case FEReadTail => (h, l.(pc := FEReadNext, tailOld := h.tail))
    case FEReadNext =>
      var next := Deref(h.nodes, l.tailOld.node).next;
      if next.value.None? then (h, AfterFinishEnq(l.(next := next)))
      else (h, l.(pc := FEReadState, next := next, ftid := Deref(h.nodes, next.value.value).enqTid))
    case FEReadState => (h, l.(pc := FECheckTail, cur := SlotOf(h, l.ftid)))
    case FECheckTail => if h.tail == l.tailOld then (h, l.(pc := FECheckNode)) else (h, AfterFinishEnq(l))
    case FECheckNode =>
      if SlotOf(h, l.ftid).desc.node == l.next.value then (h, l.(pc := FEReadPhase))
      else (h, AfterFinishEnq(l))
    case FEReadPhase => (h, l.(pc := FECasState, newPhase := SlotOf(h, l.ftid).desc.phase))
    case FECasState =>
      (if SlotOf(h, l.ftid) == l.cur then
         SetSlot(h, l.ftid, Desc(h.nextDesc, l.newPhase, false, Enq, l.next.value), l.cur.aba + 1)
       else h,
       l.(pc := FECasTail))
    case FECasTail =>
      (if h.tail == l.tailOld && l.next.value.Some? then
         h.(tail := Ptr(l.next.value.value, l.tailOld.aba + 1))
       else h,
       AfterFinishEnq(l))
    case _ => (h, l)
  }

  function StepHelpDequeue(h: Heap, t: nat, l: Local): (Heap, Local) {
    match l.pc
    case HDPending =>
      if SlotOf(h, l.tid).desc.pending then (h, l.(pc := HDPhase)) else (h, l.(pc := HelpScan, i := l.i + 1))
    case HDPhase =>
      if SlotOf(h, l.tid).desc.phase <= l.phase then (h, l.(pc := HDReadHead))
      else (h, l.(pc := HelpScan, i := l.i + 1))
    case HDReadHead => (h, l.(pc := HDReadTail, headOld := h.head))
    case HDReadTail => (h, l.(pc := HDReadNext, tailOld := h.tail))
    case HDReadNext => (h, l.(pc := HDCheckHead, next := Deref(h.nodes, l.headOld.node).next))
    case HDCheckHead =>
      if h.head != l.headOld then (h, l.(pc := HDPending))
      else if l.headOld.node != l.tailOld.node then (h, l.(pc := HDState))
      else if l.next.value.None? then (h, l.(pc := HDEmptyState))
      else (h, l.(pc := FEReadTail, ret := ToDeqLoop))
    case HDEmptyState => (h, l.(pc := HDEmptyTail, cur := SlotOf(h, l.tid)))
    case HDEmptyTail =>
      if h.tail.node == l.tailOld.node then (h, l.(pc := HDEmptyPending)) else (h, l.(pc := HDPending))
    case HDEmptyPending =>
      if SlotOf(h, l.tid).desc.pending then (h, l.(pc := HDEmptyPhase)) else (h, l.(pc := HDPending))
    case HDEmptyPhase =>
      if SlotOf(h, l.tid).desc.phase <= l.phase then (h, l.(pc := HDEmptyReadPhase))
      else (h, l.(pc := HDPending))
    case HDEmptyReadPhase => (h, l.(pc := HDEmptyCas, newPhase := SlotOf(h, l.tid).desc.phase))
    case HDEmptyCas =>
      (if SlotOf(h, l.tid) == l.cur then
         SetSlot(h, l.tid, Desc(h.nextDesc, l.newPhase, false, Deq, None), l.cur.aba + 1)
       else h,
       l.(pc := HDPending))
    case HDState => (h, l.(pc := HDPending2, cur := SlotOf(h, l.tid)))
    case HDPending2 =>
      if SlotOf(h, l.tid).desc.pending then (h, l.(pc := HDPhase2)) else (h, l.(pc := HelpScan, i := l.i + 1))
    case HDPhase2 =>
      if SlotOf(h, l.tid).desc.phase <= l.phase then (h, l.(pc := HDCheckHead2))
      else (h, l.(pc := HelpScan, i := l.i + 1))
    case HDCheckHead2 =>
      if h.head == l.headOld && l.cur.desc.node != Some(l.headOld.node) then (h, l.(pc := HDReadPhase))
      else (h, l.(pc := HDCasDeqTid))
    case HDReadPhase => (h, l.(pc := HDCasState, newPhase := SlotOf(h, l.tid).desc.phase))
    case HDCasState =>
      if SlotOf(h, l.tid) == l.cur then
        (SetSlot(h, l.tid, Desc(h.nextDesc, l.newPhase, true, Deq, Some(l.headOld.node)), l.cur.aba + 1),
         l.(pc := HDCasDeqTid))
      else (h, l.(pc := HDPending))
    case HDCasDeqTid =>
      (if Deref(h.nodes, l.headOld.node).deqTid.None? then ClaimNode(h, l.headOld.node, l.tid) else h,
       l.(pc := FDReadHead, ret := ToDeqLoop))
    case _ => (h, l)
  }

  function StepFinishDequeue(h: Heap, t: nat, l: Local): (Heap, Local) {
    match l.pc
    case FDReadHead => (h, l.(pc := FDReadNext, headOld := h.head))
    case FDReadNext => (h, l.(pc := FDReadDeqTid, next := Deref(h.nodes, l.headOld.node).next))
    case FDReadDeqTid =>
      var d := Deref(h.nodes, l.headOld.node).deqTid;
      if d.None? then (h, AfterFinishDeq(l)) else (h, l.(pc := FDReadState, ftid := d.value))
    case FDReadState => (h, l.(pc := FDCheckHead, cur := SlotOf(h, l.ftid)))
    case FDCheckHead =>
      if h.head == l.headOld && l.next.value.Some? then (h, l.(pc := FDReadPhase)) else (h, AfterFinishDeq(l))
    case FDReadPhase => (h, l.(pc := FDReadNode, newPhase := SlotOf(h, l.ftid).desc.phase))
    case FDReadNode => (h, l.(pc := FDCasState, newNode := SlotOf(h, l.ftid).desc.node))
    case FDCasState =>
      (if SlotOf(h, l.ftid) == l.cur then
         SetSlot(h, l.ftid, Desc(h.nextDesc, l.newPhase, false, Deq, l.newNode), l.cur.aba + 1)
       else h,
       l.(pc := FDCasHead))
    case FDCasHead =>
      (if h.head == l.headOld && l.next.value.Some? then
         h.(head := Ptr(l.next.value.value, l.headOld.aba + 1))
       else h,
       AfterFinishDeq(l))
    case _ => (h, l)
  }

  predicate InHelpEnqueue(pc: PC) {
    pc.HEPending? || pc.HEPhase? || pc.HEReadTail? || pc.HEReadNext? || pc.HECheckTail?
    || pc.HEPending2? || pc.HEPhase2? || pc.HEReadNode? || pc.HECas?
  }

  predicate InFinishEnqueue(pc: PC) {
    pc.FEReadTail? || pc.FEReadNext? || pc.FEReadState? || pc.FECheckTail? || pc.FECheckNode?
    || pc.FEReadPhase? || pc.FECasState? || pc.FECasTail?
  }

  predicate InHelpDequeue(pc: PC) {
    pc.HDPending? || pc.HDPhase? || pc.HDReadHead? || pc.HDReadTail? || pc.HDReadNext?
    || pc.HDCheckHead? || pc.HDEmptyState? || pc.HDEmptyTail? || pc.HDEmptyPending?
    || pc.HDEmptyPhase? || pc.HDEmptyReadPhase? || pc.HDEmptyCas? || pc.HDState?
    || pc.HDPending2? || pc.HDPhase2? || pc.HDCheckHead2? || pc.HDReadPhase? || pc.HDCasState?
    || pc.HDCasDeqTid?
  }

  predicate InFinishDequeue(pc: PC) {
    pc.FDReadHead? || pc.FDReadNext? || pc.FDReadDeqTid? || pc.FDReadState? || pc.FDCheckHead?
    || pc.FDReadPhase? || pc.FDReadNode? || pc.FDCasState? || pc.FDCasHead?
  }

  /** One step of thread `t` with locals `l`. */
  function StepThread(h: Heap, t: nat, l: Local, c: Choice): (Heap, Local) {
    if InHelpEnqueue(l.pc) then StepHelpEnqueue(h, t, l)
    else if InFinishEnqueue(l.pc) then StepFinishEnqueue(h, t, l)
    else if InHelpDequeue(l.pc) then StepHelpDequeue(h, t, l)
    else if InFinishDequeue(l.pc) then StepFinishDequeue(h, t, l)
    else StepOuter(h, t, l, c)
  }

  function Step(s: State, t: nat, c: Choice): State
    requires t < |s.locals|
  {
    var r := StepThread(s.heap, t, s.locals[t], c);
    State(r.0, s.locals[t := r.1])
  }

  /** The constructor: one sentinel node, no operation ever published. */
  function InitHeap(n: nat): Heap {
    Heap([Node(0, Link(None, 0), 0, None, Some(0))], Ptr(0, 0), Ptr(0, 0),
         seq(n, i requires 0 <= i < n => Slot(Desc(i, -1, false, Enq, None), 0)), n,
         [0], seq(n, i => 0), seq(n, i => None), seq(n, i => true), [])
  }

  predicate Init(s: State) {
    && s.heap == InitHeap(|s.locals|)
    && forall t :: 0 <= t < |s.locals| ==> s.locals[t].pc.Idle?
  }

  ghost predicate Next(s: State, s': State) {
    exists t: nat, c :: t < |s.locals| && s' == Step(s, t, c)
  }

  /** Any interleaving of any number of threads. */
  ghost predicate IsRun(run: seq<State>) {
    && |run| > 0
    && Init(run[0])
    && forall i :: 0 <= i < |run| - 1 ==> Next(run[i], run[i + 1])
  }
}
