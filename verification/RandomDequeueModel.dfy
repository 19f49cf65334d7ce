/** The random-dequeue queue as an interleaved step machine. One step of a thread is one read, write or
    CAS of a shared word; memory is sequentially consistent, and a node is allocated in the step that
    links it, so that node `i` is the `i`-th one linked. The index a dequeue picks is any number below
    the quasi factor, or zero. `log`, `op` and `sawEmpty` are history. */
module RandomDequeueModel {
  import opened Histories

  /** A pointer with its version; NIL is the null pointer. */
  datatype Ptr = Ptr(node: int, aba: nat)

  const NIL: int := -1

  datatype Node = Node(next: Ptr, value: int, deleted: bool)

  /** The events in the log name nodes: the one that was linked, and the one that was deleted. */
  datatype Heap = Heap(quasiFactor: nat, nodes: seq<Node>, head: Ptr, tail: Ptr, log: seq<Event>)

  datatype PC =
    | Idle | Return
    | EqReadTail | EqReadNext | EqCheckTail | EqCasNext | EqHelpTail | EqCasTail
    | DqReadHead | DqReadTail | DqReadNext | DqCheckHead | DqHelpTail
    // random index zero: move head over deleted nodes
    | DqReadDeleted | DqCasHead | DqNextHead
    // any other random index
    | DqWalk
    | DqCheckDeleted | DqCasDeleted

  datatype Result = NoResult | True | TrueValue(value: int) | False

  datatype Local = Local(
    pc: PC, enqueue: bool, item: int, headOld: Ptr, tailOld: Ptr, next: Ptr, node: int, i: nat, randomIndex: nat,
    result: Result, op: nat, sawEmpty: bool)

  datatype State = State(heap: Heap, locals: seq<Local>)

  /** What an idle thread starts, and the random number of a dequeue. */
  datatype Choice = Choice(enqueue: bool, item: int, random: nat)

  /** The node at an address. Outside memory the result is unspecified; the invariant shows that no
      step looks there. */
  function Deref(h: Heap, n: int): Node {
    if 0 <= n < |h.nodes| then h.nodes[n] else Node(Ptr(NIL, 0), 0, false)
  }

  // ------------------------------------------------------------------ the steps

  function LinkNode(h: Heap, at: int, aba: nat, item: int, t: nat, op: nat): Heap {
    if 0 <= at < |h.nodes| then
      h.(nodes := h.nodes[at := h.nodes[at].(next := Ptr(|h.nodes|, aba))] + [Node(Ptr(NIL, 0), item, false)],
         log := h.log + [Added(t, op, |h.nodes|)])
    else h
  }

  function CasTail(h: Heap, tailOld: Ptr, node: int): Heap {
    if h.tail == tailOld then h.(tail := Ptr(node, tailOld.aba + 1)) else h
  }

  function DeleteNode(h: Heap, n: int, t: nat, op: nat): Heap {
    if 0 <= n < |h.nodes| then
      h.(nodes := h.nodes[n := h.nodes[n].(deleted := true)], log := h.log + [Removed(t, op, n)])
    else h
  }

  function StepEnqueue(h: Heap, t: nat, l: Local): (Heap, Local) {
    match l.pc
    case EqReadTail => (h, l.(pc := EqReadNext, tailOld := h.tail))
    case EqReadNext => (h, l.(pc := EqCheckTail, next := Deref(h, l.tailOld.node).next))
    case EqCheckTail =>
      (h, l.(pc := if h.tail != l.tailOld then EqReadTail else if l.next.node == NIL then EqCasNext else EqHelpTail))
    case EqCasNext =>
      if Deref(h, l.tailOld.node).next == l.next then
        (LinkNode(h, l.tailOld.node, l.next.aba + 1, l.item, t, l.op), l.(pc := EqCasTail, node := |h.nodes|))
      else (h, l.(pc := EqReadTail))
    case EqHelpTail => (CasTail(h, l.tailOld, l.next.node), l.(pc := EqReadTail))
    case EqCasTail => (CasTail(h, l.tailOld, l.node), l.(pc := Return, result := True))
    case _ => (h, l)
  }

  /** Everything that has been enqueued has been removed. */
  predicate Drained(h: Heap) {
    forall i {:trigger h.nodes[i]} :: 1 <= i < |h.nodes| ==> h.nodes[i].deleted
  }

  /** The random index; it is zero once the retries are used up, which may be at any time. */
  function RandomIndex(h: Heap, c: Choice): nat {
    if h.quasiFactor > 0 then c.random % h.quasiFactor else 0
  }

  function StepDequeue(h: Heap, t: nat, l: Local, c: Choice): (Heap, Local) {
    match l.pc
    case DqReadHead => (h, l.(pc := DqReadTail, headOld := h.head))
    case DqReadTail => (h, l.(pc := DqReadNext, tailOld := h.tail))
    case DqReadNext =>
      (h, l.(pc := DqCheckHead, next := Deref(h, l.headOld.node).next, sawEmpty := l.sawEmpty || Drained(h)))
    case DqCheckHead =>
      if h.head != l.headOld then (h, l.(pc := DqReadHead))
      else if l.headOld.node == l.tailOld.node then
        if l.next.node == NIL then (h, l.(pc := Return, result := False)) else (h, l.(pc := DqHelpTail))
      else
        (h, l.(pc := if RandomIndex(h, c) == 0 then DqReadDeleted else DqWalk, randomIndex := RandomIndex(h, c),
               node := l.next.node, i := 0))
    case DqHelpTail => (CasTail(h, l.tailOld, l.next.node), l.(pc := DqReadHead))
    case DqReadDeleted =>
      if l.node == NIL then (h, l.(pc := Return, result := False))
      else (h, l.(pc := if Deref(h, l.node).deleted then DqCasHead else DqCheckDeleted))
    case DqCasHead =>
      if h.head != l.headOld then (h, l.(pc := DqReadHead))
      else
        (h.(head := Ptr(l.node, l.headOld.aba + 1)),
         l.(pc := if l.node == l.tailOld.node then DqReadHead else DqNextHead, headOld := Ptr(l.node, l.headOld.aba + 1)))
    case DqNextHead =>
      var next := Deref(h, l.headOld.node).next; (h, l.(pc := DqReadDeleted, next := next, node := next.node))
    case DqWalk =>
      var next := Deref(h, l.node).next.node;
      (h, if l.i < l.randomIndex && next != NIL then l.(node := next, i := l.i + 1) else l.(pc := DqCheckDeleted))
    case DqCheckDeleted => (h, l.(pc := if Deref(h, l.node).deleted then DqReadHead else DqCasDeleted))
    case DqCasDeleted =>
      if Deref(h, l.node).deleted then (h, l.(pc := DqReadHead))
      else (DeleteNode(h, l.node, t, l.op), l.(pc := Return, result := TrueValue(Deref(h, l.node).value)))
    case _ => (h, l)
  }

  predicate InEnqueue(pc: PC) {
    pc.EqReadTail? || pc.EqReadNext? || pc.EqCheckTail? || pc.EqCasNext? || pc.EqHelpTail? || pc.EqCasTail?
  }

  predicate InDequeue(pc: PC) {
    || pc.DqReadHead? || pc.DqReadTail? || pc.DqReadNext? || pc.DqCheckHead? || pc.DqHelpTail?
    || pc.DqReadDeleted? || pc.DqCasHead? || pc.DqNextHead? || pc.DqWalk? || pc.DqCheckDeleted? || pc.DqCasDeleted?
  }

  function Start(l: Local, c: Choice): Local {
    if c.enqueue then l.(pc := EqReadTail, enqueue := true, item := c.item, op := l.op + 1, sawEmpty := false)
    else l.(pc := DqReadHead, enqueue := false, op := l.op + 1, sawEmpty := false)
  }

  /** One step of thread `t` with locals `l`. */
  function StepThread(h: Heap, t: nat, l: Local, c: Choice): (Heap, Local) {
    if InEnqueue(l.pc) then StepEnqueue(h, t, l)
    else if InDequeue(l.pc) then StepDequeue(h, t, l, c)
    else if l.pc.Idle? then (h, Start(l, c))
    else (h, l.(pc := Idle))
  }

  function Step(s: State, t: nat, c: Choice): State
    requires t < |s.locals|
  {
    var r := StepThread(s.heap, t, s.locals[t], c);
    State(r.0, s.locals[t := r.1])
  }

  /** One sentinel node. */
  function InitHeap(quasiFactor: nat): Heap {
    Heap(quasiFactor, [Node(Ptr(NIL, 0), 0, false)], Ptr(0, 0), Ptr(0, 0), [])
  }

  predicate Init(s: State) {
    && s.heap.quasiFactor > 0 && s.heap == InitHeap(s.heap.quasiFactor)
    && forall t :: 0 <= t < |s.locals| ==> s.locals[t].pc.Idle? && !s.locals[t].sawEmpty
  }

  ghost predicate Next(s: State, s': State) {
    exists t: nat, c :: t < |s.locals| && s' == Step(s, t, c)
  }

  /** Any interleaving of any number of threads, with any random numbers. */
  ghost predicate IsRun(run: seq<State>) {
    && |run| > 0
    && Init(run[0])
    && forall i :: 0 <= i < |run| - 1 ==> Next(run[i], run[i + 1])
  }
}
