/** The Michael-Scott queue as an interleaved step machine. One step of a thread is one read or CAS of
    a shared word; memory is sequentially consistent, and a node is allocated in the step that links
    it, so that node `i` is the `i`-th one linked. `log`, `op`, `node` and `sawEmpty` are history. */
module MsQueueModel {
  import opened Histories

  /** A pointer with its version; NIL is the null pointer. */
  datatype Ptr = Ptr(node: int, aba: nat)

  const NIL: int := -1

  datatype Node = Node(next: Ptr, value: int)

  datatype Heap = Heap(nodes: seq<Node>, head: Ptr, tail: Ptr, log: seq<Event>)

  datatype PC =
    | Idle | Return
    | EqReadTail | EqReadNext | EqCheckTail | EqCasNext | EqHelpTail | EqCasTail
    | DqReadHead | DqReadTail | DqReadNext | DqCheckHead | DqHelpTail | DqReadValue | DqCasHead

  datatype Result = NoResult | True | TrueValue(value: int) | False

  /** The locals of one thread. When a dequeue returns, `tailOld` is what dequeue_return_tail stores.
      `node` is the node an enqueue has linked, and `sawEmpty` whether a dequeue has met the empty
      queue. */
  datatype Local = Local(
    pc: PC, enqueue: bool, item: int, headOld: Ptr, tailOld: Ptr, next: Ptr, value: int,
    result: Result, op: nat, node: nat, sawEmpty: bool)

  datatype State = State(heap: Heap, locals: seq<Local>)

  /** What an idle thread starts. */
  datatype Choice = StartEnqueue(item: int) | StartDequeue

  /** The node at an address. Outside memory the result is unspecified; the invariant shows that no
      step looks there. */
  function Deref(h: Heap, n: int): Node {
    if 0 <= n < |h.nodes| then h.nodes[n] else Node(Ptr(NIL, 0), 0)
  }

  // ------------------------------------------------------------------ the abstract queue

  /** The values of the nodes from position `n` on. */
  function ValuesFrom(nodes: seq<Node>, n: nat): (r: seq<int>)
    requires n <= |nodes|
    ensures |r| == |nodes| - n
  {
    seq(|nodes| - n, i requires 0 <= i < |nodes| - n => nodes[n + i].value)
  }

  /** The abstract queue: the values of the nodes behind head, oldest first. */
  function Contents(h: Heap): seq<int> {
    if 0 <= h.head.node < |h.nodes| then ValuesFrom(h.nodes, h.head.node + 1) else []
  }

  // ------------------------------------------------------------------ the steps

  /** A successful CAS of `next`: node `at` gets a successor. */
  function LinkNode(h: Heap, at: int, aba: nat, item: int, t: nat, op: nat): Heap {
    if 0 <= at < |h.nodes| then
      h.(nodes := h.nodes[at := h.nodes[at].(next := Ptr(|h.nodes|, aba))] + [Node(Ptr(NIL, 0), item)],
         log := h.log + [Added(t, op, item)])
    else h
  }

  function CasTail(h: Heap, tailOld: Ptr, node: int): Heap {
    if h.tail == tailOld then h.(tail := Ptr(node, tailOld.aba + 1)) else h
  }

  function StepEnqueue(h: Heap, t: nat, l: Local): (Heap, Local) {
    match l.pc
    case EqReadTail => (h, l.(pc := EqReadNext, tailOld := h.tail))
    case EqReadNext => (h, l.(pc := EqCheckTail, next := Deref(h, l.tailOld.node).next))
    case EqCheckTail =>
      (h, l.(pc := if h.tail != l.tailOld then EqReadTail else if l.next.node == NIL then EqCasNext else EqHelpTail))
    case EqCasNext =>
      if Deref(h, l.tailOld.node).next == l.next then
        (LinkNode(h, l.tailOld.node, l.next.aba + 1, l.item, t, l.op), l.(pc := EqCasTail, node := |h.nodes|))
      else (h, l.(pc := EqReadTail))
    case EqHelpTail => (CasTail(h, l.tailOld, l.next.node), l.(pc := EqReadTail))
    case EqCasTail => (CasTail(h, l.tailOld, l.node), l.(pc := Return, result := True))
    case _ => (h, l)
  }

  function StepDequeue(h: Heap, t: nat, l: Local): (Heap, Local) {
    match l.pc
    case DqReadHead => (h, l.(pc := DqReadTail, headOld := h.head))
    case DqReadTail => (h, l.(pc := DqReadNext, tailOld := h.tail))
    case DqReadNext =>
      (h, l.(pc := DqCheckHead, next := Deref(h, l.headOld.node).next, sawEmpty := l.sawEmpty || Contents(h) == []))
    case DqCheckHead =>
      if h.head != l.headOld then (h, l.(pc := DqReadHead))
      else if l.headOld.node != l.tailOld.node then (h, l.(pc := DqReadValue))
      else if l.next.node == NIL then (h, l.(pc := Return, result := False))
      else (h, l.(pc := DqHelpTail))
    case DqHelpTail => (CasTail(h, l.tailOld, l.next.node), l.(pc := DqReadHead))
    case DqReadValue => (h, l.(pc := DqCasHead, value := Deref(h, l.next.node).value))
    case DqCasHead =>
      if h.head == l.headOld then
        (h.(head := Ptr(l.next.node, l.headOld.aba + 1), log := h.log + [Removed(t, l.op, l.value)]),
         l.(pc := Return, result := TrueValue(l.value)))
      else (h, l.(pc := DqReadHead))
    case _ => (h, l)
  }

  predicate InEnqueue(pc: PC) {
    pc.EqReadTail? || pc.EqReadNext? || pc.EqCheckTail? || pc.EqCasNext? || pc.EqHelpTail? || pc.EqCasTail?
  }

  predicate InDequeue(pc: PC) {
    || pc.DqReadHead? || pc.DqReadTail? || pc.DqReadNext? || pc.DqCheckHead? || pc.DqHelpTail?
    || pc.DqReadValue? || pc.DqCasHead?
  }

  /** A new operation. */
  function Start(l: Local, c: Choice): Local {
    match c
    case StartEnqueue(item) => l.(pc := EqReadTail, enqueue := true, item := item, op := l.op + 1, sawEmpty := false)
    case StartDequeue => l.(pc := DqReadHead, enqueue := false, op := l.op + 1, sawEmpty := false)
  }

  /** One step of thread `t` with locals `l`. */
  function StepThread(h: Heap, t: nat, l: Local, c: Choice): (Heap, Local) {
    if InEnqueue(l.pc) then StepEnqueue(h, t, l)
    else if InDequeue(l.pc) then StepDequeue(h, t, l)
    else if l.pc.Idle? then (h, Start(l, c))
    else (h, l.(pc := Idle))
  }

  function Step(s: State, t: nat, c: Choice): State
    requires t < |s.locals|
  {
    var r := StepThread(s.heap, t, s.locals[t], c);
    State(r.0, s.locals[t := r.1])
  }

  /** One sentinel node. */
  function InitHeap(): Heap {
    Heap([Node(Ptr(NIL, 0), 0)], Ptr(0, 0), Ptr(0, 0), [])
  }

  predicate Init(s: State) {
    && s.heap == InitHeap()
    && forall t :: 0 <= t < |s.locals| ==> s.locals[t].pc.Idle? && !s.locals[t].sawEmpty
  }

  ghost predicate Next(s: State, s': State) {
    exists t: nat, c :: t < |s.locals| && s' == Step(s, t, c)
  }

  /** Any interleaving of any number of threads. */
  ghost predicate IsRun(run: seq<State>) {
    && |run| > 0
    && Init(run[0])
    && forall i :: 0 <= i < |run| - 1 ==> Next(run[i], run[i + 1])
  }
}
