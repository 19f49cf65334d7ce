/** The Treiber stack as an interleaved step machine in which nodes are recycled at once: a push may get
    any node that is not in the stack, not being pushed by another thread, and not waiting for the pop
    that removed it to read its data. One step of a thread is one read, write or CAS of a shared word;
    memory is sequentially consistent. `stack`, `held`, `log`, `op`, `value` and `sawEmpty` are history. */
module TreiberModel {
  import opened Histories

  /** A pointer with its version; NIL is the null pointer. */
  datatype Ptr = Ptr(node: int, aba: nat)

  const NIL: int := -1

  datatype Node = Node(next: int, data: int)

  datatype Heap = Heap(
    nodes: seq<Node>, top: Ptr,
    stack: seq<nat>,        // the nodes in the stack, top first
    held: map<nat, nat>,    // the nodes that are being pushed or have just been popped, and by whom
    log: seq<Event>)

  datatype PC =
    | Idle | Return
    | PuReadTop | PuWriteNext | PuCas
    | PoReadTop | PoReadNext | PoCas | PoReadData

  datatype Result = NoResult | True | TrueValue(value: int) | False

  /** The locals of one thread. When a pop returns false, `topOld` is what get_return_empty_state stores.
      `value` is what a pop removed, and `sawEmpty` whether it has met the empty stack. */
  datatype Local = Local(
    pc: PC, push: bool, item: int, node: nat, topOld: Ptr, next: int, result: Result, op: nat,
    value: int, sawEmpty: bool)

  datatype State = State(heap: Heap, locals: seq<Local>)

  /** What an idle thread starts; a push also names the node that the allocator gives it. */
  datatype Choice = StartPush(item: int, node: nat) | StartPop

  /** The node at an address. Outside memory the result is unspecified; the invariant shows that no
      step looks there. */
  function Deref(h: Heap, n: int): Node {
    if 0 <= n < |h.nodes| then h.nodes[n] else Node(NIL, 0)
  }

  /** The abstract stack, top first. */
  function Contents(h: Heap): (r: seq<int>)
    ensures |r| == |h.stack|
  {
    seq(|h.stack|, i requires 0 <= i < |h.stack| => Deref(h, h.stack[i]).data)
  }

  /** The allocator may give out a node nobody uses, or a new one. */
  predicate Free(h: Heap, n: nat) {
    n == |h.nodes| || (n < |h.nodes| && n !in h.stack && n !in h.held)
  }

  // ------------------------------------------------------------------ the steps

  function Allocate(h: Heap, n: nat, item: int, t: nat): Heap {
    if n < |h.nodes| then h.(nodes := h.nodes[n := h.nodes[n].(data := item)], held := h.held[n := t])
    else h.(nodes := h.nodes + [Node(NIL, item)], held := h.held[n := t])
  }

  function SetNext(h: Heap, n: nat, next: int): Heap {
    if n < |h.nodes| then h.(nodes := h.nodes[n := h.nodes[n].(next := next)]) else h
  }

  function PushTop(h: Heap, n: nat, item: int, t: nat, op: nat): Heap {
    h.(top := Ptr(n, h.top.aba + 1), stack := [n] + h.stack, held := h.held - {n}, log := h.log + [Added(t, op, item)])
  }

  function PopTop(h: Heap, next: int, t: nat, op: nat): Heap {
    if h.top.node >= 0 && |h.stack| > 0 then
      h.(top := Ptr(next, h.top.aba + 1), stack := h.stack[1..], held := h.held[h.top.node := t],
         log := h.log + [Removed(t, op, Deref(h, h.top.node).data)])
    else h.(top := Ptr(next, h.top.aba + 1))
  }

  function StepPush(h: Heap, t: nat, l: Local): (Heap, Local) {
    match l.pc
    case PuReadTop => (h, l.(pc := PuWriteNext, topOld := h.top))
    case PuWriteNext => (SetNext(h, l.node, l.topOld.node), l.(pc := PuCas))
    case PuCas =>
      if h.top == l.topOld then (PushTop(h, l.node, l.item, t, l.op), l.(pc := Return, result := True))
      else (h, l.(pc := PuReadTop))
    case _ => (h, l)
  }

  function StepPop(h: Heap, t: nat, l: Local): (Heap, Local) {
    match l.pc
    case PoReadTop =>
      if h.top.node == NIL then
        (h, l.(pc := Return, topOld := h.top, result := False, sawEmpty := l.sawEmpty || Contents(h) == []))
      else (h, l.(pc := PoReadNext, topOld := h.top))
    case PoReadNext => (h, l.(pc := PoCas, next := Deref(h, l.topOld.node).next))
    case PoCas =>
      if h.top == l.topOld then
        (PopTop(h, l.next, t, l.op), l.(pc := PoReadData, value := Deref(h, l.topOld.node).data))
      else (h, l.(pc := PoReadTop))
    case PoReadData =>
      (if l.topOld.node >= 0 then h.(held := h.held - {l.topOld.node}) else h,
       l.(pc := Return, result := TrueValue(Deref(h, l.topOld.node).data)))
    case _ => (h, l)
  }

  predicate InPush(pc: PC) {
    pc.PuReadTop? || pc.PuWriteNext? || pc.PuCas?
  }

  predicate InPop(pc: PC) {
    pc.PoReadTop? || pc.PoReadNext? || pc.PoCas? || pc.PoReadData?
  }

  /** A new operation; a push allocates its node and writes the data. */
  function Start(h: Heap, t: nat, l: Local, c: Choice): (Heap, Local) {
    match c
    case StartPush(item, n) =>
      if Free(h, n) then
        (Allocate(h, n, item, t), l.(pc := PuReadTop, push := true, item := item, node := n, op := l.op + 1, sawEmpty := false))
      else (h, l)
    case StartPop => (h, l.(pc := PoReadTop, push := false, op := l.op + 1, sawEmpty := false))
  }

  /** One step of thread `t` with locals `l`. */
  function StepThread(h: Heap, t: nat, l: Local, c: Choice): (Heap, Local) {
    if InPush(l.pc) then StepPush(h, t, l)
    else if InPop(l.pc) then StepPop(h, t, l)
    else if l.pc.Idle? then Start(h, t, l, c)
    else (h, l.(pc := Idle))
  }

  function Step(s: State, t: nat, c: Choice): State
    requires t < |s.locals|
  {
    var r := StepThread(s.heap, t, s.locals[t], c);
    State(r.0, s.locals[t := r.1])
  }

  function InitHeap(): Heap {
    Heap([], Ptr(NIL, 0), [], map[], [])
  }

  predicate Init(s: State) {
    && s.heap == InitHeap()
    && forall t :: 0 <= t < |s.locals| ==> s.locals[t].pc.Idle? && !s.locals[t].sawEmpty
  }

  ghost predicate Next(s: State, s': State) {
    exists t: nat, c :: t < |s.locals| && s' == Step(s, t, c)
  }

  /** Any interleaving of any number of threads, with any choices of the allocator. */
  ghost predicate IsRun(run: seq<State>) {
    && |run| > 0
    && Init(run[0])
    && forall i :: 0 <= i < |run| - 1 ==> Next(run[i], run[i + 1])
  }
}
