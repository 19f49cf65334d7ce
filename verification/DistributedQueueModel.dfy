/** The distributed queue over any mixture of Michael-Scott queues and Treiber stacks, as an interleaved
    step machine: a step of a thread is a step of its operation on one partial structure, or a read of
    `empty_state`, or the thread's own bookkeeping. The balancer may choose any partial structure.
    `mid` and `done` are history. */
module DistributedQueueModel {
  import opened Basics
  import Ms = MsQueueModel
  import Treiber = TreiberModel

  /** One partial structure, with the locals of all threads in it. */
  datatype Part = MsPart(ms: Ms.State) | TreiberPart(stack: Treiber.State)

  /** The word that `empty_state` reads: the tail of a queue, the top of a stack. */
  datatype Raw = Raw(node: int, aba: nat)

  datatype PC = Idle | Put | Get | Check | Return

  datatype Result = NoResult | True | TrueValue(value: int) | False

  /** The locals of one thread. `tails` is its row of `tails_`; `mid` are the words of all partial
      structures as they were between the two passes; `op` counts the operations. */
  datatype Local = Local(
    pc: PC, item: int, index: nat, start: nat, i: nat, tails: seq<Raw>, mid: seq<Raw>, result: Result, op: nat)

  /** `done` are the nodes of the Michael-Scott queues whose put has returned. */
  datatype State = State(parts: seq<Part>, locals: seq<Local>, done: set<(nat, nat)>)

  /** The operation an idle thread starts, the balancer's choice, and the node the allocator gives. */
  datatype Choice = Choice(put: bool, item: int, index: nat, node: nat)

  // ------------------------------------------------------------------ one partial structure

  function EmptyState(p: Part): Raw {
    match p
    case MsPart(s) => Raw(s.heap.tail.node, s.heap.tail.aba)
    case TreiberPart(s) => Raw(s.heap.top.node, s.heap.top.aba)
  }

  function Threads(p: Part): nat {
    match p
    case MsPart(s) => |s.locals|
    case TreiberPart(s) => |s.locals|
  }

  /** A step of thread `t` in its operation on this structure; it starts one if it has none. */
  function StepPart(p: Part, t: nat, put: bool, item: int, node: nat): Part
    requires t < Threads(p)
  {
    match p
    case MsPart(s) => MsPart(Ms.Step(s, t, if put then Ms.StartEnqueue(item) else Ms.StartDequeue))
    case TreiberPart(s) => TreiberPart(Treiber.Step(s, t, if put then Treiber.StartPush(item, node) else Treiber.StartPop))
  }

  predicate Returns(p: Part, t: nat)
    requires t < Threads(p)
  {
    match p
    case MsPart(s) => s.locals[t].pc.Return?
    case TreiberPart(s) => s.locals[t].pc.Return?
  }

  /** The value that get_return_empty_state returns; None for false. */
  function Got(p: Part, t: nat): Option<int>
    requires t < Threads(p)
  {
    match p
    case MsPart(s) => if s.locals[t].result.TrueValue? then Some(s.locals[t].result.value) else None
    case TreiberPart(s) => if s.locals[t].result.TrueValue? then Some(s.locals[t].result.value) else None
  }

  /** The word that get_return_empty_state stores with false. */
  function Stored(p: Part, t: nat): Raw
    requires t < Threads(p)
  {
    match p
    case MsPart(s) => Raw(s.locals[t].tailOld.node, s.locals[t].tailOld.aba)
    case TreiberPart(s) => Raw(s.locals[t].topOld.node, s.locals[t].topOld.aba)
  }

  // ------------------------------------------------------------------ the steps

  /** The end of a put: the node a Michael-Scott queue got is on record. */
  function Done(s: State, t: nat, b: nat): set<(nat, nat)>
    requires b < |s.parts| && t < Threads(s.parts[b])
  {
    if s.parts[b].MsPart? then s.done + {(b, s.parts[b].ms.locals[t].node)} else s.done
  }

  function Words(parts: seq<Part>): (r: seq<Raw>)
    ensures |r| == |parts|
  {
    seq(|parts|, b requires 0 <= b < |parts| => EmptyState(parts[b]))
  }

  /** What the loops of `get` do after a pass has gone over partial structure `index`. */
  function AfterGet(s: State, t: nat, l: Local): Local
    requires |s.parts| > 0
  {
    if l.i + 1 < |s.parts| then l.(i := l.i + 1, index := Visit(l.start, l.i + 1, |s.parts|))
    else l.(pc := Check, i := 0, index := Visit(l.start, 0, |s.parts|), mid := Words(s.parts))
  }

  function Step(s: State, t: nat, c: Choice): State
    requires t < |s.locals|
  {
    var l := s.locals[t];
    var n := |s.parts|;
    if n == 0 || l.index >= n || t >= Threads(s.parts[l.index]) then s else
    var p := s.parts[l.index];
    match l.pc
    case Idle =>
      var l' := if c.put then l.(pc := Put, item := c.item, index := c.index % n, op := l.op + 1)
                else l.(pc := Get, start := c.index % n, i := 0, index := Visit(c.index % n, 0, n), op := l.op + 1);
      s.(locals := s.locals[t := l'])
    case Put =>
      var p' := StepPart(p, t, true, l.item, c.node);
      if Returns(p, t) then
        s.(parts := s.parts[l.index := p'], locals := s.locals[t := l.(pc := Return, result := True)], done := Done(s, t, l.index))
      else s.(parts := s.parts[l.index := p'])
    case Get =>
      var s' := s.(parts := s.parts[l.index := StepPart(p, t, false, l.item, c.node)]);
      if !Returns(p, t) then s'
      else if Got(p, t).Some? then
        s'.(locals := s.locals[t := l.(pc := Return, result := TrueValue(Got(p, t).value))])
      else if l.index < |l.tails| then
        s'.(locals := s.locals[t := AfterGet(s', t, l.(tails := l.tails[l.index := Stored(p, t)]))])
      else s'
    case Check =>
      if l.index >= |l.tails| || EmptyState(p) != l.tails[l.index] then
        s.(locals := s.locals[t := l.(pc := Get, start := l.index, i := 0, index := Visit(l.index, 0, n))])
      else if (l.index + 1) % n == l.start then s.(locals := s.locals[t := l.(pc := Return, result := False)])
      else if l.i + 1 < n then s.(locals := s.locals[t := l.(i := l.i + 1, index := Visit(l.start, l.i + 1, n))])
      else s.(locals := s.locals[t := l.(pc := Get, i := 0, index := Visit(l.start, 0, n))])
    case Return => s.(locals := s.locals[t := l.(pc := Idle)])
  }

  ghost predicate Init(s: State) {
    && |s.parts| > 0 && s.done == {}
    && (forall b {:trigger s.parts[b]} :: 0 <= b < |s.parts| ==>
          && Threads(s.parts[b]) == |s.locals|
          && match s.parts[b] case MsPart(q) => Ms.Init(q) case TreiberPart(q) => Treiber.Init(q))
    && forall t {:trigger s.locals[t]} :: 0 <= t < |s.locals| ==>
         s.locals[t].pc.Idle? && |s.locals[t].tails| == |s.parts| && s.locals[t].index < |s.parts|
  }

  ghost predicate Next(s: State, s': State) {
    exists t: nat, c :: t < |s.locals| && s' == Step(s, t, c)
  }

  /** Any interleaving of any number of threads, any choices of the balancer and the allocator. */
  ghost predicate IsRun(run: seq<State>) {
    && |run| > 0
    && Init(run[0])
    && forall i :: 0 <= i < |run| - 1 ==> Next(run[i], run[i + 1])
  }
}
