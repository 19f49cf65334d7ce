/** The flat-combining queue: an interleaved step machine in which one thread holds the lock and applies
    the operations the others have published. One step is one read or write of a shared word; the
    sequential queue is touched only by the lock holder, so an operation on it is one step. Items are not
    NULL. `holder`, `busy`, `phases`, `current`, `log` and `op` are history. */
module FlatCombining {
  import opened Basics
  import opened Histories

  const NULL: int := 0

  datatype Opcode = Done | Enqueue | Dequeue

  /** The slot in which a thread publishes its operation. */
  datatype Operation = Operation(opcode: Opcode, data: int)

  /** What has become of the last operation of a thread: it is over, or published, or applied. */
  datatype Phase = Quiet | Published(request: Opcode, item: int) | Applied(event: Event)

  /** `busy` is the slot whose operation the lock holder has applied but not marked as done; `current` are
      the numbers of the last operations published. */
  datatype Heap = Heap(
    operations: seq<Operation>, queue: seq<int>, locked: bool,
    holder: Option<nat>, busy: Option<nat>, phases: seq<Phase>, current: seq<nat>, log: seq<Event>)

  datatype PC =
    | Idle | WriteData | WriteOpcode | TryLock | CheckDone
    // scan_combine_apply
    | ReadEnqueue | ApplyEnqueue | ReadDequeue | ApplyDequeue | StoreData | StoreDone
    | Unlock
    // the end of dequeue
    | ReadData | ResetData | ResetOpcode
    | Return

  datatype Result = NoResult | True | TrueValue(value: int) | False

  datatype Local = Local(pc: PC, enqueue: bool, item: int, i: nat, data: int, op: nat, result: Result)

  datatype State = State(heap: Heap, locals: seq<Local>)

  datatype Choice = StartEnqueue(item: int) | StartDequeue

  function Request(l: Local): Opcode {
    if l.enqueue then Enqueue else Dequeue
  }

  /** The published data: the item, or NULL. */
  function Argument(l: Local): int {
    if l.enqueue then l.item else NULL
  }

  // ------------------------------------------------------------------ the steps

  function SetData(h: Heap, i: nat, data: int): Heap {
    if i < |h.operations| then h.(operations := h.operations[i := h.operations[i].(data := data)]) else h
  }

  function SetOpcode(h: Heap, i: nat, opcode: Opcode): Heap {
    if i < |h.operations| then h.(operations := h.operations[i := h.operations[i].(opcode := opcode)]) else h
  }

  function SetPhase(h: Heap, i: nat, phase: Phase): Heap {
    if i < |h.phases| then h.(phases := h.phases[i := phase]) else h
  }

  /** The operation in slot `i` becomes visible. */
  function Publish(h: Heap, t: nat, l: Local): Heap {
    var h' := SetPhase(SetOpcode(h, t, Request(l)), t, Published(Request(l), Argument(l)));
    if t < |h.current| then h'.(current := h.current[t := l.op]) else h'
  }

  function OpOf(h: Heap, i: nat): nat {
    if i < |h.current| then h.current[i] else 0
  }

  /** The operation in slot `i` is applied to the sequential queue. */
  function Apply(h: Heap, i: nat, queue: seq<int>, e: Event): Heap {
    SetPhase(h, i, Applied(e)).(queue := queue, log := h.log + [e], busy := Some(i))
  }

  function OperationAt(h: Heap, i: nat): Operation {
    if i < |h.operations| then h.operations[i] else Operation(Done, NULL)
  }

  /** The next slot, or the end of the scan. */
  function NextSlot(h: Heap, l: Local): Local {
    if l.i + 1 < |h.operations| then l.(pc := ReadEnqueue, i := l.i + 1) else l.(pc := Unlock)
  }

  function StepScan(h: Heap, t: nat, l: Local): (Heap, Local) {
    match l.pc
    case ReadEnqueue => (h, l.(pc := if OperationAt(h, l.i).opcode.Enqueue? then ApplyEnqueue else ReadDequeue))
    case ApplyEnqueue =>
      var item := OperationAt(h, l.i).data;
      (Apply(h, l.i, h.queue + [item], Added(l.i, OpOf(h, l.i), item)), l.(pc := StoreData, data := NULL))
    case ReadDequeue => (h, if OperationAt(h, l.i).opcode.Dequeue? then l.(pc := ApplyDequeue) else NextSlot(h, l))
    case ApplyDequeue =>
      if |h.queue| > 0 then
        (Apply(h, l.i, h.queue[1..], Removed(l.i, OpOf(h, l.i), h.queue[0])), l.(pc := StoreData, data := h.queue[0]))
      else (Apply(h, l.i, h.queue, Missed(l.i, OpOf(h, l.i))), l.(pc := StoreData, data := NULL))
    case StoreData => (SetData(h, l.i, l.data), l.(pc := StoreDone))
    case StoreDone => (SetOpcode(h, l.i, Done).(busy := None), NextSlot(h, l))
    case _ => (h, l)
  }

  predicate InScan(pc: PC) {
    pc.ReadEnqueue? || pc.ApplyEnqueue? || pc.ReadDequeue? || pc.ApplyDequeue? || pc.StoreData? || pc.StoreDone?
  }

  /** After its operation has been applied, an enqueue returns and a dequeue fetches its result. */
  function Finish(l: Local): Local {
    if l.enqueue then l.(pc := Return, result := True) else l.(pc := ReadData)
  }

  function StepOuter(h: Heap, t: nat, l: Local, c: Choice): (Heap, Local) {
    match l.pc
    case Idle =>
      (h, match c
          case StartEnqueue(item) =>
            if item != NULL then Local(WriteData, true, item, 0, NULL, l.op + 1, NoResult) else l
          case StartDequeue => Local(WriteData, false, NULL, 0, NULL, l.op + 1, NoResult))
    case WriteData => (SetData(h, t, Argument(l)), l.(pc := WriteOpcode))
    case WriteOpcode => (Publish(h, t, l), l.(pc := TryLock))
    case TryLock =>
      if h.locked then (h, l.(pc := CheckDone))
      else (h.(locked := true, holder := Some(t)), l.(pc := if |h.operations| > 0 then ReadEnqueue else Unlock, i := 0))
    case CheckDone => (h, if OperationAt(h, t).opcode.Done? then Finish(l) else l.(pc := TryLock))
    case Unlock => (h.(locked := false, holder := None), Finish(l))
    case ReadData => (h, l.(pc := ResetData, data := OperationAt(h, t).data))
    case ResetData => (SetPhase(SetData(h, t, NULL), t, Quiet), l.(pc := ResetOpcode))
    case ResetOpcode =>
      (SetOpcode(h, t, Done), l.(pc := Return, result := if l.data == NULL then False else TrueValue(l.data)))
    case Return => (if l.enqueue then SetPhase(h, t, Quiet) else h, l.(pc := Idle))
    case _ => (h, l)
  }

  /** One step of thread `t` with locals `l`. */
  function StepThread(h: Heap, t: nat, l: Local, c: Choice): (Heap, Local) {
    if InScan(l.pc) then StepScan(h, t, l) else StepOuter(h, t, l, c)
  }

  function Step(s: State, t: nat, c: Choice): State
    requires t < |s.locals|
  {
    var r := StepThread(s.heap, t, s.locals[t], c);
    State(r.0, s.locals[t := r.1])
  }

  function InitHeap(n: nat): Heap {
    Heap(seq(n, i => Operation(Done, NULL)), [], false, None, None, seq(n, i => Quiet), seq(n, i => 0), [])
  }

  predicate Init(s: State) {
    && s.heap == InitHeap(|s.locals|)
    && forall t :: 0 <= t < |s.locals| ==> s.locals[t].pc.Idle?
  }

  ghost predicate Next(s: State, s': State) {
    exists t: nat, c :: t < |s.locals| && s' == Step(s, t, c)
  }

  /** Any interleaving of any number of threads. */
  ghost predicate IsRun(run: seq<State>) {
    && |run| > 0
    && Init(run[0])
    && forall i :: 0 <= i < |run| - 1 ==> Next(run[i], run[i + 1])
  }
}
