/** The unbounded k-FIFO queue as an interleaved step machine. One step of a thread is one read, write
    or CAS of a shared word; memory is sequentially consistent, and a new segment is allocated in the
    step that links it, so that segment `i` is the `i`-th one linked. Items are not NULL and distinct.

    `status`, `owner`, `done`, `log` and `ops` are history: no step reads them to decide what to do. */
module KFifoModel {
  import opened Basics
  import opened Segments

  datatype Segment = Segment(items: seq<Slot>, deleted: bool, next: Ptr)

  /** Why an item that is in a slot will not be lost with its segment: it was there before head
      arrived (Ahead), or a CAS of head made the removals of the segment already under way fail
      (Anchored). An Unsure item may still be retracted. */
  datatype Prot = Unsure | Ahead | Anchored

  datatype Status = Placed(seg: nat, slot: nat, prot: Prot) | Taken

  /** Dequeue number `op` of thread `tid` took `item`. */
  datatype Removal = Removal(tid: nat, op: nat, item: int)

  datatype Heap = Heap(
    k: nat, segs: seq<Segment>, head: Ptr, tail: Ptr,
    status: map<int, Status>,   // the items that are in a slot or have been taken
    owner: map<int, nat>,       // the thread that enqueues or enqueued each item
    done: set<int>,             // the items whose enqueue returned true
    log: seq<Removal>)

  datatype PC =
    | Idle | Return
    | DqReadHead | DqScan | DqReadTail | DqCheckHead | DqCas
    | EqReadTail | EqReadHead | EqScan | EqCheckTail | EqCas
    // committed
    | CmCheckSlot | CmReadHead | CmReadDeleted | CmCasHead | CmReadDeleted2 | CmRetract
    // advance_tail
    | ATReadTail | ATReadNext | ATCheckTail | ATCasTail | ATCasNext | ATCasNewTail
    // advance_head
    | AHReadHead | AHReadTail | AHReadTailNext | AHReadHeadNext | AHCheckHead | AHCheckTail
    | AHCasTail | AHDelete | AHCasHead

  datatype Result = NoResult | True | TrueValue(value: int) | False

  /** The locals of one thread. `seen` are the slots the scan has passed; `op` and `sawEmpty` are
      history: the number of the operation, and whether it has met the queue without any committed
      item. */
  datatype Local = Local(
    pc: PC, enqueue: bool, item: int, start: nat, i: nat, seen: set<nat>, found: Option<nat>,
    slotOld: Slot, newItem: Slot, headOld: Ptr, tailOld: Ptr, headCurrent: Ptr, tailCurrent: Ptr,
    next: Ptr, headNext: Ptr, result: Result, op: nat, sawEmpty: bool)

  datatype State = State(heap: Heap, locals: seq<Local>)

  /** What an idle thread starts, and the random start of a scan. */
  datatype Choice = Choice(enqueue: bool, item: int, random: nat)

  function NewSegment(k: nat): Segment {
    Segment(seq(k, i => EMPTY), false, Ptr(NIL, 0))
  }

  /** The segment at an address. Outside memory the result is unspecified; the invariant shows that
      no step looks there. */
  function SegAt(h: Heap, s: int): Segment {
    if 0 <= s < |h.segs| then h.segs[s] else NewSegment(h.k)
  }

  function SlotAt(h: Heap, s: int, i: nat): Slot {
    if i < |SegAt(h, s).items| then SegAt(h, s).items[i] else EMPTY
  }

  function SetSlot(h: Heap, s: int, i: nat, slot: Slot): Heap {
    if 0 <= s < |h.segs| && i < |h.segs[s].items| then
      h.(segs := h.segs[s := h.segs[s].(items := h.segs[s].items[i := slot])])
    else h
  }

  // ------------------------------------------------------------------ writes to shared memory

  function PutItem(h: Heap, s: int, i: nat, slot: Slot): Heap {
    if s < 0 then h else SetSlot(h, s, i, slot).(status := h.status[slot.value := Placed(s, i, Unsure)])
  }

  function TakeItem(h: Heap, s: int, i: nat, slot: Slot, t: nat, op: nat): Heap {
    SetSlot(h, s, i, Slot(NULL, slot.aba + 1)).(
      status := h.status[slot.value := Taken], log := h.log + [Removal(t, op, slot.value)])
  }

  function RetractItem(h: Heap, s: int, i: nat, slot: Slot): Heap {
    SetSlot(h, s, i, EMPTY).(status := h.status - {slot.value})
  }

  /** The item of an enqueue is known to be safe. */
  function Protect(h: Heap, x: int, prot: Prot): Heap {
    if x in h.status && h.status[x].Placed? then h.(status := h.status[x := h.status[x].(prot := prot)]) else h
  }

  /** `prot` of an item when its enqueue reads head: the item is safe if head is further back. */
  function MarkAhead(h: Heap, x: int, s: int): Heap {
    if h.head.seg < s then Protect(h, x, Ahead) else h
  }

  function LinkSegment(h: Heap, s: int, aba: nat): Heap {
    if 0 <= s < |h.segs| then
      h.(segs := h.segs[s := h.segs[s].(next := Ptr(|h.segs|, aba))] + [NewSegment(h.k)])
    else h
  }

  function Delete(h: Heap, s: int): Heap {
    if 0 <= s < |h.segs| then h.(segs := h.segs[s := h.segs[s].(deleted := true)]) else h
  }

  // ------------------------------------------------------------------ the steps

  /** No committed item is in the queue: every item that is in a slot may still be retracted. */
  ghost predicate Quiescent(h: Heap) {
    forall x {:trigger x in h.status} :: x in h.status && h.status[x].Placed? ==> h.status[x].prot.Unsure?
  }

  function Scan(l: Local, c: Choice, k: nat): Local {
    l.(start := if k > 0 then c.random % k else 0, i := 0, seen := {}, found := None)
  }

  /** One round of find_index. */
  function ScanStep(h: Heap, l: Local, s: int, empty: bool, after: PC): Local {
    if l.i >= h.k then l.(pc := after, found := None) else
      var index := Visit(l.start, l.i, h.k);
      var slot := SlotAt(h, s, index);
      if (slot.value == NULL) == empty then l.(pc := after, found := Some(index), slotOld := slot)
      else if l.i + 1 == h.k then l.(pc := after, i := l.i + 1, seen := l.seen + {index})
      else l.(i := l.i + 1, seen := l.seen + {index})
  }

  ghost function StepDequeue(h: Heap, t: nat, l: Local, c: Choice): (Heap, Local) {
    match l.pc
    case DqReadHead => (h, Scan(l.(pc := DqScan, headOld := h.head), c, h.k))
    case DqScan => (h, ScanStep(h, l, l.headOld.seg, false, DqReadTail))
    case DqReadTail =>
      (h, l.(pc := DqCheckHead, tailOld := h.tail, sawEmpty := l.sawEmpty || Quiescent(h)))
    case DqCheckHead =>
      if h.head != l.headOld then (h, l.(pc := DqReadHead))
      else if l.found.Some? then
        (h, l.(pc := if l.headOld.seg == l.tailOld.seg then ATReadTail else DqCas))
      else if l.headOld.seg == l.tailOld.seg then (h, l.(pc := Return, result := False))
      else (h, l.(pc := AHReadHead))
    case DqCas =>
      if l.found.Some? && SlotAt(h, l.headOld.seg, l.found.value) == l.slotOld then
        (TakeItem(h, l.headOld.seg, l.found.value, l.slotOld, t, l.op),
         l.(pc := Return, result := TrueValue(l.slotOld.value)))
      else (h, l.(pc := DqReadHead))
    case _ => (h, l)
  }

  function StepEnqueue(h: Heap, t: nat, l: Local, c: Choice): (Heap, Local) {
    match l.pc
    case EqReadTail => (h, l.(pc := EqReadHead, tailOld := h.tail))
    case EqReadHead => (h, Scan(l.(pc := EqScan, headOld := h.head), c, h.k))
    case EqScan => (h, ScanStep(h, l, l.tailOld.seg, true, EqCheckTail))
    case EqCheckTail =>
      if h.tail != l.tailOld then (h, l.(pc := EqReadTail))
      else if l.found.Some? then (h, l.(pc := EqCas, newItem := Slot(l.item, l.slotOld.aba + 1)))
      else (h, l.(pc := ATReadTail))
    case EqCas =>
      if l.found.Some? && SlotAt(h, l.tailOld.seg, l.found.value) == l.slotOld then
        (PutItem(h, l.tailOld.seg, l.found.value, l.newItem), l.(pc := CmCheckSlot))
      else (h, l.(pc := EqReadTail))
    case _ => (h, l)
  }

  function StepCommitted(h: Heap, t: nat, l: Local): (Heap, Local)
  {
    var s := l.tailOld.seg;
    var i := if l.found.Some? then l.found.value else 0;
    match l.pc
    case CmCheckSlot =>
      if SlotAt(h, s, i) != l.newItem then (h, l.(pc := Return, result := True)) else (h, l.(pc := CmReadHead))
    case CmReadHead => (MarkAhead(h, l.item, s), l.(pc := CmReadDeleted, headCurrent := h.head))
    case CmReadDeleted =>
      if SegAt(h, s).deleted then (h, l.(pc := CmRetract))
      else if s == l.headCurrent.seg then (h, l.(pc := CmCasHead))
      else (h, l.(pc := CmReadDeleted2))
    case CmCasHead =>
      if h.head == l.headCurrent then
        (Protect(h.(head := Ptr(h.head.seg, h.head.aba + 1)), l.item, Anchored), l.(pc := Return, result := True))
      else (h, l.(pc := CmRetract))
    case CmReadDeleted2 =>
      if !SegAt(h, s).deleted then (h, l.(pc := Return, result := True)) else (h, l.(pc := CmRetract))
    case CmRetract =>
      if SlotAt(h, s, i) == l.newItem then (RetractItem(h, s, i, l.newItem), l.(pc := EqReadTail))
      else (h, l.(pc := Return, result := True))
    case _ => (h, l)
  }

  function AfterAdvanceTail(l: Local): Local {
    l.(pc := if l.enqueue then EqReadTail else DqCas)
  }

  function StepAdvanceTail(h: Heap, t: nat, l: Local): (Heap, Local) {
    match l.pc
    case ATReadTail => (h, if h.tail == l.tailOld then l.(pc := ATReadNext) else AfterAdvanceTail(l))
    case ATReadNext => (h, l.(pc := ATCheckTail, next := SegAt(h, l.tailOld.seg).next))
    case ATCheckTail =>
      if h.tail != l.tailOld then (h, AfterAdvanceTail(l))
      else (h, l.(pc := if l.next.seg != NIL then ATCasTail else ATCasNext))
    case ATCasTail =>
      (if h.tail == l.tailOld then h.(tail := Ptr(l.next.seg, l.next.aba + 1)) else h, AfterAdvanceTail(l))
    case ATCasNext =>
      if SegAt(h, l.tailOld.seg).next == l.next then
        (LinkSegment(h, l.tailOld.seg, l.next.aba + 1), l.(pc := ATCasNewTail, next := Ptr(|h.segs|, l.tailOld.aba + 1)))
      else (h, AfterAdvanceTail(l))
    case ATCasNewTail =>
      (if h.tail == l.tailOld then h.(tail := l.next) else h, AfterAdvanceTail(l))
    case _ => (h, l)
  }

  function StepAdvanceHead(h: Heap, t: nat, l: Local): (Heap, Local) {
    match l.pc
    case AHReadHead =>
      if h.head == l.headOld then (h, l.(pc := AHReadTail, headCurrent := h.head)) else (h, l.(pc := DqReadHead))
    case AHReadTail => (h, l.(pc := AHReadTailNext, tailCurrent := h.tail))
    case AHReadTailNext => (h, l.(pc := AHReadHeadNext, next := SegAt(h, l.tailCurrent.seg).next))
    case AHReadHeadNext => (h, l.(pc := AHCheckHead, headNext := SegAt(h, l.headCurrent.seg).next))
    case AHCheckHead =>
      if h.head != l.headCurrent then (h, l.(pc := DqReadHead))
      else if l.headCurrent.seg != l.tailCurrent.seg then (h, l.(pc := AHDelete))
      else (h, l.(pc := if l.next.seg == NIL then DqReadHead else AHCheckTail))
    case AHCheckTail => (h, l.(pc := if h.tail == l.tailCurrent then AHCasTail else AHDelete))
    case AHCasTail =>
      (if h.tail == l.tailCurrent then h.(tail := Ptr(l.next.seg, l.tailCurrent.aba + 1)) else h, l.(pc := AHDelete))
    case AHDelete => (Delete(h, l.headOld.seg), l.(pc := AHCasHead))
    case AHCasHead =>
      (if h.head == l.headOld then h.(head := Ptr(l.headNext.seg, l.headOld.aba + 1)) else h, l.(pc := DqReadHead))
    case _ => (h, l)
  }

  /** An idle thread starts an operation; enqueue is called with an item no one has used. A thread
      that returns becomes idle. */
  function StepCaller(h: Heap, t: nat, l: Local, c: Choice): (Heap, Local) {
    match l.pc
    case Idle =>
      if !c.enqueue then (h, l.(pc := DqReadHead, enqueue := false, op := l.op + 1, sawEmpty := false))
      else if c.item != NULL && c.item !in h.owner then
        (h.(owner := h.owner[c.item := t]),
         l.(pc := EqReadTail, enqueue := true, item := c.item, op := l.op + 1, sawEmpty := false))
      else (h, l)
    case Return => (if l.enqueue then h.(done := h.done + {l.item}) else h, l.(pc := Idle))
    case _ => (h, l)
  }

  predicate InDequeue(pc: PC) {
    pc.DqReadHead? || pc.DqScan? || pc.DqReadTail? || pc.DqCheckHead? || pc.DqCas?
  }

  predicate InEnqueue(pc: PC) {
    pc.EqReadTail? || pc.EqReadHead? || pc.EqScan? || pc.EqCheckTail? || pc.EqCas?
  }

  predicate InCommitted(pc: PC) {
    pc.CmCheckSlot? || pc.CmReadHead? || pc.CmReadDeleted? || pc.CmCasHead? || pc.CmReadDeleted2? || pc.CmRetract?
  }

  predicate InAdvanceTail(pc: PC) {
    pc.ATReadTail? || pc.ATReadNext? || pc.ATCheckTail? || pc.ATCasTail? || pc.ATCasNext? || pc.ATCasNewTail?
  }

  predicate InAdvanceHead(pc: PC) {
    || pc.AHReadHead? || pc.AHReadTail? || pc.AHReadTailNext? || pc.AHReadHeadNext? || pc.AHCheckHead?
    || pc.AHCheckTail? || pc.AHCasTail? || pc.AHDelete? || pc.AHCasHead?
  }

  /** One step of thread `t` with locals `l`. */
  ghost function StepThread(h: Heap, t: nat, l: Local, c: Choice): (Heap, Local) {
    if InDequeue(l.pc) then StepDequeue(h, t, l, c)
    else if InEnqueue(l.pc) then StepEnqueue(h, t, l, c)
    else if InCommitted(l.pc) then StepCommitted(h, t, l)
    else if InAdvanceTail(l.pc) then StepAdvanceTail(h, t, l)
    else if InAdvanceHead(l.pc) then StepAdvanceHead(h, t, l)
    else StepCaller(h, t, l, c)
  }

  ghost function Step(s: State, t: nat, c: Choice): State
    requires t < |s.locals|
  {
    var r := StepThread(s.heap, t, s.locals[t], c);
    State(r.0, s.locals[t := r.1])
  }

  function InitHeap(k: nat): Heap {
    Heap(k, [NewSegment(k)], Ptr(0, 0), Ptr(0, 0), map[], map[], {}, [])
  }

  ghost predicate Init(s: State) {
    && s.heap.k > 0 && s.heap == InitHeap(s.heap.k)
    && forall t :: 0 <= t < |s.locals| ==> s.locals[t].pc.Idle? && !s.locals[t].sawEmpty
  }

  ghost predicate Next(s: State, s': State) {
    exists t: nat, c :: t < |s.locals| && s' == Step(s, t, c)
  }

  /** Any interleaving of any number of threads, with any random numbers. */
  ghost predicate IsRun(run: seq<State>) {
    && |run| > 0
    && Init(run[0])
    && forall i :: 0 <= i < |run| - 1 ==> Next(run[i], run[i + 1])
  }
}
