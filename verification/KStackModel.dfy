/** The k-stack as an interleaved step machine. One step of a thread is one read, write, fetch-and-add
    or CAS of a shared word; memory is sequentially consistent, and a new segment is allocated in the
    step that makes it top. Items are not NULL and distinct. `committed` reads the remove counter once.

    `removers`, `live`, `status`, `owner`, `done`, `log`, `op` and the snapshots are history: no step
    reads them to decide what to do. */
module KStackModel {
  import opened Basics
  import opened Segments

  /** `removers` are the threads that have added to the counter and not subtracted, and None once the
      segment has been removed. */
  datatype Segment = Segment(items: seq<Slot>, remove: int, next: int, removers: set<Option<nat>>)

  /** Where an item is; it is safe once it cannot be lost with its segment or be retracted. */
  datatype Status = Placed(seg: nat, slot: nat, safe: bool) | Taken

  /** Pop number `op` of thread `tid` took `item`. */
  datatype Removal = Removal(tid: nat, op: nat, item: int)

  datatype Heap = Heap(
    k: nat, segs: seq<Segment>, top: Ptr,
    live: seq<nat>,             // the segments in the stack, from the bottom to top
    status: map<int, Status>,   // the items that are in a slot or have been taken
    owner: map<int, nat>,       // the thread that pushes or pushed each item
    done: set<int>,             // the items whose push returned true
    log: seq<Removal>)

  datatype PC =
    | Idle | Return
    | PopReadTop | PopScan | PopCheckTop | PopReadTop2 | PopCas | PopReadNext | PopCheckTop2
    // is_empty
    | EmptyFirst | EmptySecond
    // try_remove_ksegment
    | RmReadTop | RmReadNext | RmCheckTop | RmAdd | RmReadNext2 | RmCasTop | RmSub
    | PushReadTop | PushScan | PushCheckTop | PushCas
    // committed
    | CmCheckSlot | CmReadRemove | CmCheckTop | CmCasTop | CmRetract
    // try_add_new_ksegment
    | AddCheckTop | AddCasTop

  datatype Result = NoResult | True | TrueValue(value: int) | False

  /** The locals of one thread. `records` is its row of `item_records_`, `seen` are the slots a pass of
      is_empty has gone over, `removing` is whether is_empty was called by try_remove_ksegment. `snap`
      and `snapTop` are the slots of the segment, and top, as they were between the two passes. */
  datatype Local = Local(
    pc: PC, push: bool, item: int, start: nat, i: nat, seen: set<nat>, found: Option<nat>,
    slotOld: Slot, newItem: Slot, topOld: Ptr, topCurrent: Ptr, next: int,
    records: map<nat, Slot>, removing: bool, snap: seq<Slot>, snapTop: Ptr, result: Result, op: nat)

  datatype State = State(heap: Heap, locals: seq<Local>)

  /** What an idle thread starts, and the random start of a scan. */
  datatype Choice = Choice(push: bool, item: int, random: nat)

  function NewSegment(k: nat, next: int): Segment {
    Segment(seq(k, i => EMPTY), 0, next, {})
  }

  /** The segment at an address. Outside memory the result is unspecified; the invariant shows that no
      step looks there. */
  function SegAt(h: Heap, s: int): Segment {
    if 0 <= s < |h.segs| then h.segs[s] else NewSegment(h.k, NIL)
  }

  function SlotAt(h: Heap, s: int, i: nat): Slot {
    if i < |SegAt(h, s).items| then SegAt(h, s).items[i] else EMPTY
  }

  function SetSlot(h: Heap, s: int, i: nat, slot: Slot): Heap {
    if 0 <= s < |h.segs| && i < |h.segs[s].items| then
      h.(segs := h.segs[s := h.segs[s].(items := h.segs[s].items[i := slot])])
    else h
  }

  // ------------------------------------------------------------------ writes to shared memory

  function PutItem(h: Heap, s: int, i: nat, slot: Slot): Heap {
    if s < 0 then h else SetSlot(h, s, i, slot).(status := h.status[slot.value := Placed(s, i, false)])
  }

  function TakeItem(h: Heap, s: int, i: nat, slot: Slot, t: nat, op: nat): Heap {
    SetSlot(h, s, i, Slot(NULL, slot.aba + 1)).(
      status := h.status[slot.value := Taken], log := h.log + [Removal(t, op, slot.value)])
  }

  function RetractItem(h: Heap, s: int, i: nat, slot: Slot): Heap {
    SetSlot(h, s, i, Slot(NULL, slot.aba + 1)).(status := h.status - {slot.value})
  }

  /** The item of a push is known to be safe. */
  function Protect(h: Heap, x: int): Heap {
    if x in h.status && h.status[x].Placed? then h.(status := h.status[x := h.status[x].(safe := true)]) else h
  }

  function SetSegment(h: Heap, s: int, remove: int, removers: set<Option<nat>>): Heap {
    if 0 <= s < |h.segs| then h.(segs := h.segs[s := h.segs[s].(remove := remove, removers := removers)]) else h
  }

  function AddRemover(h: Heap, s: int, t: nat): Heap {
    SetSegment(h, s, SegAt(h, s).remove + 1, SegAt(h, s).removers + {Some(t)})
  }

  function SubRemover(h: Heap, s: int, t: nat): Heap {
    SetSegment(h, s, SegAt(h, s).remove - 1, SegAt(h, s).removers - {Some(t)})
  }

  function AddSegment(h: Heap): Heap {
    h.(segs := h.segs + [NewSegment(h.k, h.top.seg)], top := Ptr(|h.segs|, h.top.aba), live := h.live + [|h.segs|])
  }

  /** Top goes back to `next`; the remover never subtracts. */
  function RemoveSegment(h: Heap, next: int, t: nat): Heap {
    var s := h.top.seg;
    SetSegment(h, s, SegAt(h, s).remove, SegAt(h, s).removers - {Some(t)} + {None}).(
      top := Ptr(next, h.top.aba + 1), live := if |h.live| > 0 then h.live[..|h.live| - 1] else h.live)
  }

  // ------------------------------------------------------------------ the steps

  function Scan(l: Local, c: Choice, k: nat): Local {
    l.(start := if k > 0 then c.random % k else 0, i := 0, seen := {}, found := None)
  }

  /** One round of find_index. */
  function ScanStep(h: Heap, l: Local, empty: bool, after: PC): Local {
    if l.i >= h.k then l.(pc := after, found := None) else
      var index := Visit(l.start, l.i, h.k);
      var slot := SlotAt(h, l.topOld.seg, index);
      if (slot.value == NULL) == empty then l.(pc := after, found := Some(index), slotOld := slot)
      else if l.i + 1 == h.k then l.(pc := after, i := l.i + 1)
      else l.(i := l.i + 1)
  }

  function StepPop(h: Heap, t: nat, l: Local, c: Choice): (Heap, Local) {
    match l.pc
    case PopReadTop => (h, Scan(l.(pc := PopScan, topOld := h.top), c, h.k))
    case PopScan => (h, ScanStep(h, l, false, PopCheckTop))
    case PopCheckTop =>
      (h, l.(pc := if h.top != l.topOld then PopReadTop else if l.found.Some? then PopReadTop2 else PopReadNext))
    case PopReadTop2 => (h, l.(pc := PopCas, topCurrent := h.top))
    case PopCas =>
      if l.found.Some? && SlotAt(h, l.topCurrent.seg, l.found.value) == l.slotOld then
        (TakeItem(h, l.topCurrent.seg, l.found.value, l.slotOld, t, l.op),
         l.(pc := Return, result := TrueValue(l.slotOld.value)))
      else (h, l.(pc := PopReadTop))
    case PopReadNext =>
      (h, if SegAt(h, l.topOld.seg).next == NIL then Scan(l.(pc := EmptyFirst, removing := false), c, h.k)
          else l.(pc := RmReadTop))
    case PopCheckTop2 => (h, if h.top == l.topOld then l.(pc := Return, result := False) else l.(pc := PopReadTop))
    case _ => (h, l)
  }

  /** One round of either pass of is_empty. */
  function StepEmpty(h: Heap, t: nat, l: Local): (Heap, Local) {
    var no := if l.removing then RmSub else PopReadTop;
    if l.i >= h.k then (h, l.(pc := no)) else
      var index := Visit(l.start, l.i, h.k);
      var slot := SlotAt(h, l.topOld.seg, index);
      match l.pc
      case EmptyFirst =>
        if slot.value != NULL then (h, l.(pc := no))
        else
          var l' := l.(records := l.records[index := slot], seen := l.seen + {index});
          if l.i + 1 == h.k then
            (h, l'.(pc := EmptySecond, i := 0, snap := SegAt(h, l.topOld.seg).items, snapTop := h.top))
          else (h, l'.(i := l.i + 1))
      case EmptySecond =>
        if !(index in l.records && l.records[index] == slot) then (h, l.(pc := no))
        else if l.i + 1 == h.k then (h, l.(pc := if l.removing then RmReadNext2 else PopCheckTop2, i := l.i + 1))
        else (h, l.(i := l.i + 1))
      case _ => (h, l)
  }

  function StepRemove(h: Heap, t: nat, l: Local, c: Choice): (Heap, Local) {
    match l.pc
    case RmReadTop => (h, l.(pc := RmReadNext, topCurrent := h.top))
    case RmReadNext => (h, l.(pc := RmCheckTop, next := SegAt(h, l.topCurrent.seg).next))
    case RmCheckTop => (h, l.(pc := if h.top == l.topOld && l.next != NIL then RmAdd else PopReadTop))
    case RmAdd => (AddRemover(h, l.topOld.seg, t), Scan(l.(pc := EmptyFirst, removing := true), c, h.k))
    case RmReadNext2 => (h, l.(pc := RmCasTop, next := SegAt(h, l.topOld.seg).next))
    case RmCasTop =>
      if h.top == l.topOld then (RemoveSegment(h, l.next, t), l.(pc := PopReadTop)) else (h, l.(pc := RmSub))
    case RmSub => (SubRemover(h, l.topOld.seg, t), l.(pc := PopReadTop))
    case _ => (h, l)
  }

  function StepPush(h: Heap, t: nat, l: Local, c: Choice): (Heap, Local) {
    match l.pc
    case PushReadTop => (h, Scan(l.(pc := PushScan, topOld := h.top), c, h.k))
    case PushScan => (h, ScanStep(h, l, true, PushCheckTop))
    case PushCheckTop =>
      if h.top != l.topOld then (h, l.(pc := PushReadTop))
      else if l.found.Some? then (h, l.(pc := PushCas, newItem := Slot(l.item, l.slotOld.aba + 1)))
      else (h, l.(pc := AddCheckTop))
    case PushCas =>
      if l.found.Some? && SlotAt(h, l.topOld.seg, l.found.value) == l.slotOld then
        (PutItem(h, l.topOld.seg, l.found.value, l.newItem), l.(pc := CmCheckSlot))
      else (h, l.(pc := PushReadTop))
    case AddCheckTop => (h, l.(pc := if h.top == l.topOld then AddCasTop else PushReadTop))
    case AddCasTop => (if h.top == l.topOld then AddSegment(h) else h, l.(pc := PushReadTop))
    case _ => (h, l)
  }

  function StepCommitted(h: Heap, t: nat, l: Local): (Heap, Local) {
    var s := l.topOld.seg;
    var i := if l.found.Some? then l.found.value else 0;
    match l.pc
    case CmCheckSlot =>
      if SlotAt(h, s, i) != l.newItem then (h, l.(pc := Return, result := True)) else (h, l.(pc := CmReadRemove))
    case CmReadRemove =>
      if SegAt(h, s).remove == 0 then (Protect(h, l.item), l.(pc := Return, result := True))
      else (h, l.(pc := CmCheckTop))
    case CmCheckTop => (h, l.(pc := if h.top == l.topOld then CmCasTop else CmRetract))
    case CmCasTop =>
      if h.top == l.topOld then
        (Protect(h.(top := Ptr(h.top.seg, h.top.aba + 1)), l.item), l.(pc := Return, result := True))
      else (h, l.(pc := CmRetract))
    case CmRetract =>
      if SlotAt(h, s, i) == l.newItem then (RetractItem(h, s, i, l.newItem), l.(pc := PushReadTop))
      else (h, l.(pc := Return, result := True))
    case _ => (h, l)
  }

  /** An idle thread starts an operation; push is called with an item no one has used. A thread that
      returns becomes idle. */
  function StepCaller(h: Heap, t: nat, l: Local, c: Choice): (Heap, Local) {
    match l.pc
    case Idle =>
      if !c.push then (h, l.(pc := PopReadTop, push := false, op := l.op + 1))
      else if c.item != NULL && c.item !in h.owner then
        (h.(owner := h.owner[c.item := t]), l.(pc := PushReadTop, push := true, item := c.item, op := l.op + 1))
      else (h, l)
    case Return => (if l.push then h.(done := h.done + {l.item}) else h, l.(pc := Idle))
    case _ => (h, l)
  }

  predicate InPop(pc: PC) {
    || pc.PopReadTop? || pc.PopScan? || pc.PopCheckTop? || pc.PopReadTop2? || pc.PopCas? || pc.PopReadNext?
    || pc.PopCheckTop2?
  }

  predicate InEmpty(pc: PC) {
    pc.EmptyFirst? || pc.EmptySecond?
  }

  predicate InRemove(pc: PC) {
    || pc.RmReadTop? || pc.RmReadNext? || pc.RmCheckTop? || pc.RmAdd? || pc.RmReadNext2? || pc.RmCasTop? || pc.RmSub?
  }

  predicate InPush(pc: PC) {
    pc.PushReadTop? || pc.PushScan? || pc.PushCheckTop? || pc.PushCas? || pc.AddCheckTop? || pc.AddCasTop?
  }

  predicate InCommitted(pc: PC) {
    pc.CmCheckSlot? || pc.CmReadRemove? || pc.CmCheckTop? || pc.CmCasTop? || pc.CmRetract?
  }

  /** One step of thread `t` with locals `l`. */
  function StepThread(h: Heap, t: nat, l: Local, c: Choice): (Heap, Local) {
    if InPop(l.pc) then StepPop(h, t, l, c)
    else if InEmpty(l.pc) then StepEmpty(h, t, l)
    else if InRemove(l.pc) then StepRemove(h, t, l, c)
    else if InPush(l.pc) then StepPush(h, t, l, c)
    else if InCommitted(l.pc) then StepCommitted(h, t, l)
    else StepCaller(h, t, l, c)
  }

  function Step(s: State, t: nat, c: Choice): State
    requires t < |s.locals|
  {
    var r := StepThread(s.heap, t, s.locals[t], c);
    State(r.0, s.locals[t := r.1])
  }

  function InitHeap(k: nat): Heap {
    Heap(k, [NewSegment(k, NIL)], Ptr(0, 0), [0], map[], map[], {}, [])
  }

  predicate Init(s: State) {
    && s.heap.k > 0 && s.heap == InitHeap(s.heap.k)
    && forall t :: 0 <= t < |s.locals| ==> s.locals[t].pc.Idle?
  }

  ghost predicate Next(s: State, s': State) {
    exists t: nat, c :: t < |s.locals| && s' == Step(s, t, c)
  }

  /** Any interleaving of any number of threads, with any random numbers. */
  ghost predicate IsRun(run: seq<State>) {
    && |run| > 0
    && Init(run[0])
    && forall i :: 0 <= i < |run| - 1 ==> Next(run[i], run[i + 1])
  }
}
