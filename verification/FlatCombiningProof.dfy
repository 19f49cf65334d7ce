/** Every operation published to the flat-combining queue is applied exactly once, and all results are
    those of one FIFO queue. */
module FlatCombiningProof {
  import opened Basics
  import opened Histories
  import opened FlatCombining

  // ------------------------------------------------------------------ the invariant

  /** The data a dequeue finds in its slot. */
  function Outcome(e: Event): int {
    if e.Removed? then e.value else NULL
  }

  ghost predicate SlotOk(h: Heap, t: nat)
    requires t < |h.operations| == |h.phases| == |h.current|
  {
    var o := h.operations[t];
    match h.phases[t]
    case Quiet => o.opcode.Done? && NoEvent(h.log, t, h.current[t] + 1)
    case Published(request, item) =>
      && o.opcode == request && !request.Done? && NoEvent(h.log, t, h.current[t])
      && (request.Enqueue? ==> o.data == item && item != NULL)
    case Applied(e) =>
      && e.tid == t && e.op == h.current[t] && OneEvent(h.log, e)
      && (!o.opcode.Done? ==> h.busy == Some(t))
      && (o.opcode.Done? && !e.Added? ==> o.data == Outcome(e))
      && (e.Removed? ==> e.value != NULL)
  }

  ghost predicate Core(h: Heap) {
    && |h.operations| == |h.phases| == |h.current|
    && (forall t: nat {:trigger h.phases[t]} :: t < |h.phases| ==> SlotOk(h, t))
    && h.locked == h.holder.Some?
    && (h.busy.Some? ==>
          && h.locked && h.busy.value < |h.phases| && h.phases[h.busy.value].Applied?
          && !h.operations[h.busy.value].opcode.Done?)
    && ReplayQueue(h.log) == Some(h.queue)
    && NULL !in h.queue
  }

  /** The steps of threads other than `t` stay within this relation: they leave the slot of `t` alone but
      for applying what is published; and while `t` holds the lock, what is published stays so, and the
      sequential queue is its own. */
  ghost predicate Rely(h: Heap, h': Heap, t: nat) {
    && |h'.operations| == |h.operations| && |h'.phases| == |h.phases| && |h'.current| == |h.current|
    && (h.holder == Some(t) <==> h'.holder == Some(t))
    && (h.holder == Some(t) ==>
          && h'.busy == h.busy && h'.queue == h.queue && h'.log == h.log
          && forall i: nat {:trigger h.phases[i]} {:trigger h'.phases[i]} :: i < |h.phases| && i < |h.operations| && i < |h.current| ==>
               (h.phases[i].Published? || h.busy == Some(i) ==>
                  h'.phases[i] == h.phases[i] && h'.operations[i] == h.operations[i] && h'.current[i] == h.current[i]))
    && (t < |h.phases| && t < |h.operations| && t < |h.current| ==>
          && h'.current[t] == h.current[t]
          && (h.phases[t].Quiet? ==> h'.phases[t].Quiet? && h'.operations[t] == h.operations[t])
          && (h.phases[t].Applied? ==> h'.phases[t] == h.phases[t])
          && (h.phases[t].Applied? && h.operations[t].opcode.Done? ==> h'.operations[t] == h.operations[t])
          && (h.phases[t].Published? ==>
                h'.phases[t] == h.phases[t] || (h'.phases[t].Applied? && KindOf(h'.phases[t].event, h.phases[t]))))
    && h.log <= h'.log
    && (t < |h.phases| && !h.phases[t].Published? ==> GrownByOthers(h.log, h'.log, t))
  }

  /** The event is one of the published operation. */
  predicate KindOf(e: Event, p: Phase) {
    p.Published? && if p.request.Enqueue? then e.Added? && e.value == p.item else !e.Added?
  }

  // ------------------------------------------------------------------ what a thread knows

  /** The operation of thread `t` is published or applied. */
  ghost predicate Pending(h: Heap, t: nat, l: Local) {
    && t < |h.phases| && t < |h.current| && h.current[t] == l.op
    && (l.enqueue ==> l.item != NULL)
    && (h.phases[t] == Published(Request(l), Argument(l)) || IsApplied(h, t, l))
  }

  ghost predicate IsApplied(h: Heap, t: nat, l: Local) {
    && t < |h.phases| && t < |h.current| && h.current[t] == l.op
    && h.phases[t].Applied? && KindOf(h.phases[t].event, Published(Request(l), Argument(l)))
  }

  /** Thread `t` holds the lock and has come to slot `l.i`; it has dealt with its own slot before. */
  ghost predicate Scanning(h: Heap, t: nat, l: Local) {
    h.holder == Some(t) && l.i < |h.phases| && Pending(h, t, l) && (t < l.i ==> IsApplied(h, t, l))
  }

  ghost predicate ScanInv(h: Heap, t: nat, l: Local) {
    && Scanning(h, t, l)
    && match l.pc
       case ReadEnqueue => h.busy.None?
       case ApplyEnqueue => h.busy.None? && h.phases[l.i].Published? && h.phases[l.i].request.Enqueue?
       case ReadDequeue => h.busy.None? && (l.i == t && l.enqueue ==> IsApplied(h, t, l))
       case ApplyDequeue => h.busy.None? && h.phases[l.i].Published? && h.phases[l.i].request.Dequeue?
       case StoreData => h.busy == Some(l.i) && h.phases[l.i].Applied? && l.data == Outcome(h.phases[l.i].event)
       case StoreDone =>
         && h.busy == Some(l.i) && h.phases[l.i].Applied? && l.data == Outcome(h.phases[l.i].event)
         && l.i < |h.operations| && h.operations[l.i].data == l.data
       case _ => false
  }

  ghost predicate IsDone(h: Heap, t: nat, l: Local) {
    IsApplied(h, t, l) && t < |h.operations| && h.operations[t].opcode.Done?
  }

  ghost predicate IsQuiet(h: Heap, t: nat, l: Local) {
    t < |h.phases| && t < |h.current| && h.phases[t].Quiet?
  }

  ghost predicate OuterInv(h: Heap, t: nat, l: Local) {
    match l.pc
    case Idle => h.holder != Some(t) && IsQuiet(h, t, l) && h.current[t] <= l.op
    case WriteData => h.holder != Some(t) && IsQuiet(h, t, l) && h.current[t] < l.op && (l.enqueue ==> l.item != NULL)
    case WriteOpcode =>
      && h.holder != Some(t) && IsQuiet(h, t, l) && h.current[t] < l.op && (l.enqueue ==> l.item != NULL)
      && t < |h.operations| && h.operations[t].data == Argument(l)
    case TryLock | CheckDone => h.holder != Some(t) && Pending(h, t, l)
    case Unlock => h.holder == Some(t) && h.busy.None? && IsApplied(h, t, l)
    case ReadData => h.holder != Some(t) && IsDone(h, t, l) && !l.enqueue
    case ResetData => h.holder != Some(t) && IsDone(h, t, l) && !l.enqueue && l.data == Outcome(h.phases[t].event)
    case ResetOpcode =>
      && h.holder != Some(t) && IsQuiet(h, t, l) && !l.enqueue && h.current[t] == l.op
      && OneEvent(h.log, if l.data == NULL then Missed(t, l.op) else Removed(t, l.op, l.data))
    case Return =>
      && h.holder != Some(t)
      && if l.enqueue then IsDone(h, t, l) && l.result.True?
         else IsQuiet(h, t, l) && h.current[t] == l.op && DequeueResult(h.log, t, l)
    case _ => false
  }

  ghost predicate DequeueResult(log: seq<Event>, t: nat, l: Local) {
    match l.result
    case TrueValue(v) => OneEvent(log, Removed(t, l.op, v))
    case False => OneEvent(log, Missed(t, l.op))
    case _ => false
  }

  ghost predicate LocalInv(h: Heap, t: nat, l: Local) {
    if InScan(l.pc) then ScanInv(h, t, l) else OuterInv(h, t, l)
  }

  // ------------------------------------------------------------------ stability

  lemma StableApplied(h: Heap, h': Heap, t: nat, l: Local)
    requires Core(h) && Rely(h, h', t)
    ensures IsApplied(h, t, l) ==> IsApplied(h', t, l)
    ensures IsDone(h, t, l) ==> IsDone(h', t, l)
    ensures Pending(h, t, l) ==> Pending(h', t, l)
  {
  }

  lemma Stable(h: Heap, h': Heap, t: nat, l: Local)
    requires Core(h) && Rely(h, h', t) && LocalInv(h, t, l)
    ensures LocalInv(h', t, l) == true
  {
    StableApplied(h, h', t, l);
    if l.pc.ResetOpcode? {
      StableOneEvent(h.log, h'.log, if l.data == NULL then Missed(t, l.op) else Removed(t, l.op, l.data));
    } else if l.pc.Return? && !l.enqueue {
      StableOneEvent(h.log, h'.log, if l.result.False? then Missed(t, l.op) else Removed(t, l.op, l.result.value));
    }
  }

  // ------------------------------------------------------------------ writes to shared memory

  ghost predicate Guarantee(h: Heap, h': Heap, u: nat) {
    forall t: nat {:trigger Rely(h, h', t)} :: t != u ==> Rely(h, h', t)
  }

  /** A slot nothing happens to while the log may grow by an event of another thread. */
  lemma SlotFrame(h: Heap, h': Heap, t: nat)
    requires Core(h) && t < |h.phases| == |h'.phases| == |h'.operations| == |h'.current|
    requires h'.phases[t] == h.phases[t] && h'.operations[t] == h.operations[t] && h'.current[t] == h.current[t]
    requires GrownByOthers(h.log, h'.log, t)
    requires h.busy == Some(t) ==> h'.busy == Some(t)
    ensures SlotOk(h', t)
  {
    match h.phases[t]
    case Quiet => StableNoEvent(h.log, h'.log, t, h.current[t] + 1);
    case Published(_, _) => StableNoEvent(h.log, h'.log, t, h.current[t]);
    case Applied(e) => StableOneEvent(h.log, h'.log, e);
  }

  /** A write that concerns slot `i` only, and leaves the log and the queue alone. */
  lemma SlotWrite(h: Heap, h': Heap, i: nat, u: nat)
    requires Core(h) && i < |h.phases|
    requires |h'.operations| == |h.operations| && |h'.phases| == |h.phases| && |h'.current| == |h.current|
    requires h'.queue == h.queue && h'.log == h.log && h'.holder == h.holder && h'.locked == h.locked
    requires forall t: nat {:trigger h'.phases[t]} {:trigger h.phases[t]} :: t < |h.phases| && t != i ==>
               h'.phases[t] == h.phases[t] && h'.operations[t] == h.operations[t] && h'.current[t] == h.current[t]
    requires h'.busy == h.busy || (h.busy == Some(i) && h'.busy.None?)
    requires h'.busy.Some? ==> h'.phases[h'.busy.value].Applied? && !h'.operations[h'.busy.value].opcode.Done?
    requires SlotOk(h', i)
    ensures Core(h')
  {
    forall t: nat | t < |h.phases| ensures SlotOk(h', t) {
      if t != i { SlotFrame(h, h', t); }
    }
  }

  /** The lock holder applies a published operation. */
  lemma ApplyKeeps(h: Heap, i: nat, queue: seq<int>, e: Event, u: nat)
    requires Core(h) && i < |h.phases| && h.holder == Some(u) && h.busy.None?
    requires h.phases[i].Published? && KindOf(e, h.phases[i]) && e.tid == i && e.op == h.current[i]
    requires e.Removed? ==> e.value != NULL
    requires ReplayQueue(h.log + [e]) == Some(queue) && NULL !in queue
    ensures var h' := Apply(h, i, queue, e); Core(h') && Guarantee(h, h', u) && h'.phases[i] == Applied(e)
  {
    var h' := Apply(h, i, queue, e);
    AppendGrows(h.log, e);
    FirstEvent(h.log, e);
    hide ReplayQueue, NoEvent, OneEvent, GrownByOthers;
    assert SlotOk(h, i);
    forall t: nat | t < |h.phases| ensures SlotOk(h', t) {
      if t != i {
        SlotFrame(h, h', t);
      }
    }
  }

  lemma ApplyEnqueueKeeps(h: Heap, i: nat, u: nat)
    requires Core(h) && i < |h.phases| && h.holder == Some(u) && h.busy.None?
    requires h.phases[i].Published? && h.phases[i].request.Enqueue?
    ensures var e := Added(i, h.current[i], h.operations[i].data);
            var h' := Apply(h, i, h.queue + [h.operations[i].data], e);
            Core(h') && Guarantee(h, h', u) && h'.phases[i] == Applied(e)
  {
    var e := Added(i, h.current[i], h.operations[i].data);
    assert SlotOk(h, i);
    QueueAppend(h.log, e);
    ApplyKeeps(h, i, h.queue + [h.operations[i].data], e, u);
  }

  lemma ApplyDequeueKeeps(h: Heap, i: nat, u: nat)
    requires Core(h) && i < |h.phases| && h.holder == Some(u) && h.busy.None?
    requires h.phases[i].Published? && h.phases[i].request.Dequeue?
    ensures var e := if |h.queue| > 0 then Removed(i, h.current[i], h.queue[0]) else Missed(i, h.current[i]);
            var h' := Apply(h, i, if |h.queue| > 0 then h.queue[1..] else h.queue, e);
            Core(h') && Guarantee(h, h', u) && h'.phases[i] == Applied(e)
  {
    var e := if |h.queue| > 0 then Removed(i, h.current[i], h.queue[0]) else Missed(i, h.current[i]);
    QueueAppend(h.log, e);
    if |h.queue| > 0 { assert h.queue[0] in h.queue; }
    assert forall x :: |h.queue| > 0 && x in h.queue[1..] ==> x in h.queue;
    ApplyKeeps(h, i, if |h.queue| > 0 then h.queue[1..] else h.queue, e, u);
  }

  // ------------------------------------------------------------------ the steps

  ghost predicate StepOk(h: Heap, h': Heap, u: nat, l': Local) {
    Core(h') && Guarantee(h, h', u) && LocalInv(h', u, l')
  }

  lemma NothingKeeps(h: Heap, u: nat)
    ensures Guarantee(h, h, u)
  {
  }

  lemma ScanReads(h: Heap, u: nat, l: Local)
    requires Core(h) && ScanInv(h, u, l) && (l.pc.ReadEnqueue? || l.pc.ReadDequeue?)
    ensures StepScan(h, u, l).0 == h && LocalInv(h, u, StepScan(h, u, l).1) == true
  {
    hide ReplayQueue, NoEvent, OneEvent;
    assert SlotOk(h, l.i) && SlotOk(h, u);
  }

  lemma ScanApplies(h: Heap, u: nat, l: Local)
    requires Core(h) && ScanInv(h, u, l) && (l.pc.ApplyEnqueue? || l.pc.ApplyDequeue?)
    ensures var (h', l') := StepScan(h, u, l); Core(h') && Guarantee(h, h', u) && l'.pc.StoreData? && ScanInv(h', u, l')
  {
    assert SlotOk(h, l.i);
    if l.pc.ApplyEnqueue? {
      ApplyEnqueueKeeps(h, l.i, u);
    } else {
      ApplyDequeueKeeps(h, l.i, u);
    }
    hide ReplayQueue, NoEvent, OneEvent, Guarantee, SlotOk;
  }

  lemma ScanStores(h: Heap, u: nat, l: Local)
    requires Core(h) && ScanInv(h, u, l) && (l.pc.StoreData? || l.pc.StoreDone?)
    ensures var (h', l') := StepScan(h, u, l); StepOk(h, h', u, l') == true
  {
    hide ReplayQueue, NoEvent, OneEvent;
    var h' := StepScan(h, u, l).0;
    assert SlotOk(h, l.i);
    SlotWrite(h, h', l.i, u);
  }

  lemma ScanKeeps(h: Heap, u: nat, l: Local)
    requires Core(h) && ScanInv(h, u, l)
    ensures var (h', l') := StepScan(h, u, l); StepOk(h, h', u, l') == true
  {
    NothingKeeps(h, u);
    hide Core, Guarantee, Scanning;
    if l.pc.ReadEnqueue? || l.pc.ReadDequeue? {
      ScanReads(h, u, l);
    } else if l.pc.StoreData? || l.pc.StoreDone? {
      ScanStores(h, u, l);
    } else {
      ScanApplies(h, u, l);
    }
  }

  lemma OuterReads(h: Heap, u: nat, l: Local, c: Choice)
    requires Core(h) && OuterInv(h, u, l)
    requires l.pc.Idle? || (l.pc.TryLock? && h.locked) || l.pc.CheckDone? || l.pc.ReadData? || (l.pc.Return? && !l.enqueue)
    ensures StepOuter(h, u, l, c).0 == h && LocalInv(h, u, StepOuter(h, u, l, c).1) == true
  {
    hide ReplayQueue, NoEvent, OneEvent;
    assert SlotOk(h, u);
  }

  lemma OuterLocks(h: Heap, u: nat, l: Local, c: Choice)
    requires Core(h) && OuterInv(h, u, l) && ((l.pc.TryLock? && !h.locked) || l.pc.Unlock?)
    ensures var (h', l') := StepOuter(h, u, l, c); StepOk(h, h', u, l') == true
  {
    hide ReplayQueue, NoEvent, OneEvent;
    var h' := StepOuter(h, u, l, c).0;
    assert SlotOk(h, u);
    forall t: nat | t < |h.phases| ensures SlotOk(h', t) {
      assert SlotOk(h, t);
    }
  }

  lemma OuterWrites(h: Heap, u: nat, l: Local, c: Choice)
    requires Core(h) && OuterInv(h, u, l)
    requires l.pc.WriteData? || l.pc.WriteOpcode? || l.pc.ResetOpcode?
    ensures var (h', l') := StepOuter(h, u, l, c); StepOk(h, h', u, l') == true
  {
    var h' := StepOuter(h, u, l, c).0;
    assert SlotOk(h, u);
    if l.pc.WriteOpcode? { WeakerNoEvent(h.log, u, h.current[u] + 1, l.op); }
    hide ReplayQueue, NoEvent, OneEvent;
    SlotWrite(h, h', u, u);
  }

  lemma WeakerNoEvent(log: seq<Event>, t: nat, op: nat, op': nat)
    requires NoEvent(log, t, op) && op <= op'
    ensures NoEvent(log, t, op')
  {
  }

  /** A thread retires its operation. */
  lemma OuterRetires(h: Heap, u: nat, l: Local, c: Choice)
    requires Core(h) && OuterInv(h, u, l) && (l.pc.ResetData? || (l.pc.Return? && l.enqueue))
    ensures var (h', l') := StepOuter(h, u, l, c); StepOk(h, h', u, l') == true
  {
    var h' := StepOuter(h, u, l, c).0;
    assert SlotOk(h, u);
    NoLater(h.log, h.phases[u].event);
    hide ReplayQueue, NoEvent, OneEvent;
    SlotWrite(h, h', u, u);
  }

  lemma NoLater(log: seq<Event>, e: Event)
    requires OneEvent(log, e)
    ensures NoEvent(log, e.tid, e.op + 1)
  {
  }

  lemma OuterKeeps(h: Heap, u: nat, l: Local, c: Choice)
    requires Core(h) && OuterInv(h, u, l)
    ensures var (h', l') := StepOuter(h, u, l, c); StepOk(h, h', u, l') == true
  {
    NothingKeeps(h, u);
    hide Core, Guarantee, OuterInv, ScanInv;
    if l.pc.WriteData? || l.pc.WriteOpcode? || l.pc.ResetOpcode? {
      OuterWrites(h, u, l, c);
    } else if l.pc.ResetData? || (l.pc.Return? && l.enqueue) {
      OuterRetires(h, u, l, c);
    } else if (l.pc.TryLock? && !h.locked) || l.pc.Unlock? {
      OuterLocks(h, u, l, c);
    } else {
      OuterPcs(h, u, l);
      OuterReads(h, u, l, c);
    }
  }

  lemma OuterPcs(h: Heap, u: nat, l: Local)
    requires OuterInv(h, u, l)
    ensures !InScan(l.pc)
  {
  }

  lemma ThreadKeeps(h: Heap, u: nat, l: Local, c: Choice)
    requires Core(h) && LocalInv(h, u, l)
    ensures var (h', l') := StepThread(h, u, l, c); StepOk(h, h', u, l') == true
  {
    hide Core, OuterInv, ScanInv, StepOk, StepScan, StepOuter;
    if InScan(l.pc) { ScanKeeps(h, u, l); } else { OuterKeeps(h, u, l, c); }
  }

  // ------------------------------------------------------------------ every run

  ghost predicate Inv(s: State) {
    && Core(s.heap)
    && forall t {:trigger s.locals[t]} :: 0 <= t < |s.locals| ==> LocalInv(s.heap, t, s.locals[t])
  }

  lemma StepInv(s: State, u: nat, c: Choice)
    requires Inv(s) && u < |s.locals|
    ensures Inv(Step(s, u, c)) && s.heap.log <= Step(s, u, c).heap.log
  {
    hide Core, LocalInv, StepThread, Rely;
    ThreadKeeps(s.heap, u, s.locals[u], c);
    var s' := Step(s, u, c);
    forall t: nat | t < |s'.locals| ensures LocalInv(s'.heap, t, s'.locals[t]) {
      if t != u {
        assert Rely(s.heap, s'.heap, t);
        Stable(s.heap, s'.heap, t, s.locals[t]);
      }
    }
    assert Rely(s.heap, s'.heap, u + 1);
    RelyLog(s.heap, s'.heap, u + 1);
  }

  lemma RelyLog(h: Heap, h': Heap, t: nat)
    requires Rely(h, h', t)
    ensures h.log <= h'.log
  {
  }

  lemma StepAt(run: seq<State>, k: nat) returns (u: nat, c: Choice)
    requires IsRun(run) && 0 < k < |run|
    ensures u < |run[k - 1].locals| && run[k] == Step(run[k - 1], u, c)
  {
    assert Next(run[k - 1], run[k - 1 + 1]);
    u, c :| u < |run[k - 1].locals| && run[k] == Step(run[k - 1], u, c);
  }

  lemma InitInv(s: State)
    requires Init(s)
    ensures Inv(s)
  {
    forall t: nat | t < |s.heap.phases| ensures SlotOk(s.heap, t) {}
    forall t: nat | t < |s.locals| ensures LocalInv(s.heap, t, s.locals[t]) {}
  }

  lemma {:induction false} RunInv(run: seq<State>, k: nat)
    requires IsRun(run) && k < |run|
    ensures Inv(run[k]) && |run[k].locals| == |run[0].locals|
  {
    hide Inv;
    if k == 0 {
      InitInv(run[0]);
    } else {
      RunInv(run, k - 1);
      var u, c := StepAt(run, k);
      StepInv(run[k - 1], u, c);
    }
  }

  lemma {:induction false} LogGrows(run: seq<State>, i: nat, k: nat)
    requires IsRun(run) && i <= k < |run|
    ensures run[i].heap.log <= run[k].heap.log
    decreases k - i
  {
    hide Inv, StepThread;
    if i < k {
      LogGrows(run, i, k - 1);
      RunInv(run, k - 1);
      var u, c := StepAt(run, k);
      StepInv(run[k - 1], u, c);
    }
  }

  // ------------------------------------------------------------------ the promises

  /** At every instant: the operations applied so far, in the order in which they were applied, are a run of
      one FIFO queue, which was empty whenever a dequeue was told so, and its contents are those of the
      sequential queue. */
  lemma OneQueue(run: seq<State>, k: nat)
    requires IsRun(run) && k < |run|
    ensures ReplayQueue(run[k].heap.log) == Some(run[k].heap.queue)
  {
    RunInv(run, k);
  }

  /** An operation that has not been published has not been applied. */
  lemma NotBeforePublication(run: seq<State>, k: nat, t: nat)
    requires IsRun(run) && k < |run| && t < |run[k].locals|
    requires run[k].locals[t].pc.WriteData? || run[k].locals[t].pc.WriteOpcode?
    ensures NoEvent(run[k].heap.log, t, run[k].locals[t].op)
  {
    RunInv(run, k);
    var h := run[k].heap;
    assert SlotOk(h, t);
    WeakerNoEvent(h.log, t, h.current[t] + 1, run[k].locals[t].op);
  }

  /** An enqueue that returns has been applied exactly once. */
  lemma EnqueueReturns(run: seq<State>, k: nat, t: nat)
    requires IsRun(run) && k < |run| && t < |run[k].locals| && run[k].locals[t].pc.Return? && run[k].locals[t].enqueue
    ensures var l := run[k].locals[t]; l.result.True? && OneEvent(run[k].heap.log, Added(t, l.op, l.item))
  {
    RunInv(run, k);
    assert SlotOk(run[k].heap, t);
  }

  /** A dequeue that returns has been applied exactly once, and returns what it removed, or false if it found
      the queue empty. */
  lemma DequeueReturns(run: seq<State>, k: nat, t: nat)
    requires IsRun(run) && k < |run| && t < |run[k].locals| && run[k].locals[t].pc.Return? && !run[k].locals[t].enqueue
    ensures var l := run[k].locals[t];
            match l.result
            case TrueValue(v) => OneEvent(run[k].heap.log, Removed(t, l.op, v))
            case False => OneEvent(run[k].heap.log, Missed(t, l.op))
            case _ => false
  {
    RunInv(run, k);
  }

  /** At most one thread is in scan_combine_apply. */
  lemma MutualExclusion(run: seq<State>, k: nat, t: nat, u: nat)
    requires IsRun(run) && k < |run| && t < |run[k].locals| && u < |run[k].locals|
    requires InScan(run[k].locals[t].pc) && InScan(run[k].locals[u].pc)
    ensures t == u
  {
    RunInv(run, k);
  }

  /** The order of the log respects real time: an event that is in the log at instant `i` precedes every
      event of an operation that starts after `i`. */
  lemma RealTimeOrder(run: seq<State>, i: nat, k: nat, a: nat, b: nat)
    requires IsRun(run) && i <= k < |run|
    requires a < |run[i].heap.log| && b < |run[k].heap.log|
    requires run[k].heap.log[b].tid < |run[i].locals|
    requires run[k].heap.log[b].op > run[i].locals[run[k].heap.log[b].tid].op
    ensures a < b && run[k].heap.log[a] == run[i].heap.log[a]
  {
    hide Core;
    LogGrows(run, i, k);
    RunInv(run, i);
    if b < |run[i].heap.log| {
      var t := run[k].heap.log[b].tid;
      assert run[k].heap.log[b] == run[i].heap.log[b];
      EventsSoFar(run[i], t);
    }
  }

  lemma EventsSoFar(s: State, t: nat)
    requires Inv(s) && t < |s.locals|
    ensures NoEvent(s.heap.log, t, s.locals[t].op + 1)
  {
    assert LocalInv(s.heap, t, s.locals[t]);
    assert SlotOk(s.heap, t);
    WeakerNoEvent(s.heap.log, t, s.heap.current[t] + 1, s.locals[t].op + 1);
  }
}
