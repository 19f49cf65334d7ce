/** Each call of the k-FIFO queue has exactly the effect that its argument and its result say: what is taken out is returned,
    and what has been handed in is in the queue or has been returned. */
module KFifoCalls {
  import opened Histories
  import opened Calls
  import opened KFifoModel
  import opened KFifoInvariant
  import opened KFifoActions
  import opened KFifoTheorems

  // ------------------------------------------------------------------ one step

  predicate KindOk(l: Local) {
    InDequeue(l.pc) ==> !l.enqueue
  }

  lemma KindNow(h: Heap, t: nat, l: Local)
    requires LocalInv(h, t, l)
    ensures KindOk(l)
  {
  }

  function Events(log: seq<Removal>): (r: seq<Event>)
    ensures |r| == |log|
  {
    seq(|log|, j requires 0 <= j < |log| => Removed(log[j].tid, log[j].op, log[j].item))
  }

  function Effect(t: nat, l: Local): seq<Event> {
    if !l.enqueue && l.pc.Return? && l.result.TrueValue? then [Removed(t, l.op, l.result.value)] else []
  }

  ghost function ViewOf(h: Heap, t: nat, l: Local): View {
    View(Events(h.log), l.pc.Idle?, Effect(t, l), l.enqueue, if l.enqueue then l.item else 0)
  }

  /** The log grows only by what the step is about to return. */
  ghost predicate LogStep(h: Heap, h': Heap, t: nat, l: Local, l': Local) {
    if h'.log == h.log then l.pc.Idle? || l'.pc.Idle? || Effect(t, l') == Effect(t, l)
    else
      && l'.pc.Return? && !l'.enqueue && l'.result.TrueValue? && !l.pc.Idle? && !l.pc.Return?
      && h'.log == h.log + [Removal(t, l'.op, l'.result.value)]
  }

  ghost predicate ArgumentStep(l: Local, l': Local) {
    && (!l.pc.Idle? && !l'.pc.Idle? ==> l'.enqueue == l.enqueue && l'.op == l.op && (l.enqueue ==> l'.item == l.item))
    && (l'.pc.Idle? ==> l.pc.Idle? || l.pc.Return?)
    && (l.pc.Return? ==> l'.pc.Idle?)
    && (l.pc.Idle? ==> !l'.pc.Return?)
  }

  lemma StepDequeueSeen(h: Heap, t: nat, l: Local, c: Choice)
    requires InDequeue(l.pc) && KindOk(l)
    ensures var (h', l') := StepDequeue(h, t, l, c);
            && LogStep(h, h', t, l, l') && ArgumentStep(l, l') && h'.done == h.done && h'.owner == h.owner
            && !l'.pc.Idle? && !l.pc.Return?
  {
  }

  lemma StepEnqueueSeen(h: Heap, t: nat, l: Local, c: Choice)
    requires InEnqueue(l.pc) && KindOk(l)
    ensures var (h', l') := StepEnqueue(h, t, l, c);
            && LogStep(h, h', t, l, l') && ArgumentStep(l, l') && h'.done == h.done && h'.owner == h.owner
            && !l'.pc.Idle? && !l.pc.Return?
  {
  }

  lemma StepCommittedSeen(h: Heap, t: nat, l: Local, c: Choice)
    requires InCommitted(l.pc) && KindOk(l)
    ensures var (h', l') := StepCommitted(h, t, l);
            && LogStep(h, h', t, l, l') && ArgumentStep(l, l') && h'.done == h.done && h'.owner == h.owner
            && !l'.pc.Idle? && !l.pc.Return?
  {
  }

  lemma StepAdvanceTailSeen(h: Heap, t: nat, l: Local, c: Choice)
    requires InAdvanceTail(l.pc) && KindOk(l)
    ensures var (h', l') := StepAdvanceTail(h, t, l);
            && LogStep(h, h', t, l, l') && ArgumentStep(l, l') && h'.done == h.done && h'.owner == h.owner
            && !l'.pc.Idle? && !l.pc.Return?
  {
  }

  lemma StepAdvanceHeadSeen(h: Heap, t: nat, l: Local, c: Choice)
    requires InAdvanceHead(l.pc) && KindOk(l)
    ensures var (h', l') := StepAdvanceHead(h, t, l);
            && LogStep(h, h', t, l, l') && ArgumentStep(l, l') && h'.done == h.done && h'.owner == h.owner
            && !l'.pc.Idle? && !l.pc.Return?
  {
  }

  lemma EffectStep(h: Heap, t: nat, l: Local, c: Choice)
    requires KindOk(l)
    ensures var (h', l') := StepThread(h, t, l, c); LogStep(h, h', t, l, l') && ArgumentStep(l, l')
  {
    hide LogStep, ArgumentStep, StepDequeue, StepEnqueue, StepCommitted, StepAdvanceTail, StepAdvanceHead;
    if InDequeue(l.pc) {
      StepDequeueSeen(h, t, l, c);
    } else if InEnqueue(l.pc) {
      StepEnqueueSeen(h, t, l, c);
    } else if InCommitted(l.pc) {
      StepCommittedSeen(h, t, l, c);
    } else if InAdvanceTail(l.pc) {
      StepAdvanceTailSeen(h, t, l, c);
    } else if InAdvanceHead(l.pc) {
      StepAdvanceHeadSeen(h, t, l, c);
    } else {
      StepCallerSeen(h, t, l, c);
    }
  }

  lemma StepCallerSeen(h: Heap, t: nat, l: Local, c: Choice)
    requires !InDequeue(l.pc) && !InEnqueue(l.pc) && !InCommitted(l.pc) && !InAdvanceTail(l.pc) && !InAdvanceHead(l.pc)
    ensures var (h', l') := StepCaller(h, t, l, c); LogStep(h, h', t, l, l') && ArgumentStep(l, l')
  {
  }

  /** `done` grows when an enqueue is over, and only then. */
  lemma DoneStep(h: Heap, t: nat, l: Local, c: Choice)
    requires KindOk(l)
    ensures var (h', l') := StepThread(h, t, l, c);
            && h'.done == (if l.pc.Return? && l.enqueue then h.done + {l.item} else h.done)
            && (l'.pc.Idle? <==> l.pc.Return? || (l.pc.Idle? && l' == l))
  {
    hide LogStep, ArgumentStep, StepDequeue, StepEnqueue, StepCommitted, StepAdvanceTail, StepAdvanceHead;
    if InDequeue(l.pc) { StepDequeueSeen(h, t, l, c); }
    if InEnqueue(l.pc) { StepEnqueueSeen(h, t, l, c); }
    if InCommitted(l.pc) { StepCommittedSeen(h, t, l, c); }
    if InAdvanceTail(l.pc) { StepAdvanceTailSeen(h, t, l, c); }
    if InAdvanceHead(l.pc) { StepAdvanceHeadSeen(h, t, l, c); }
  }

  /** `owner` grows when an enqueue is called, by its argument. */
  lemma OwnerStep(h: Heap, t: nat, l: Local, c: Choice)
    requires KindOk(l)
    ensures var (h', l') := StepThread(h, t, l, c);
            forall x :: x in h'.owner && x !in h.owner ==> l.pc.Idle? && !l'.pc.Idle? && c.enqueue && x == c.item
  {
    hide LogStep, ArgumentStep, StepDequeue, StepEnqueue, StepCommitted, StepAdvanceTail, StepAdvanceHead;
    if InDequeue(l.pc) { StepDequeueSeen(h, t, l, c); }
    if InEnqueue(l.pc) { StepEnqueueSeen(h, t, l, c); }
    if InCommitted(l.pc) { StepCommittedSeen(h, t, l, c); }
    if InAdvanceTail(l.pc) { StepAdvanceTailSeen(h, t, l, c); }
    if InAdvanceHead(l.pc) { StepAdvanceHeadSeen(h, t, l, c); }
  }

  lemma ViewStep(h: Heap, h': Heap, t: nat, l: Local, l': Local)
    requires LogStep(h, h', t, l, l') && ArgumentStep(l, l')
    ensures Acting(ViewOf(h, t, l), ViewOf(h', t, l'), t)
  {
    if h'.log != h.log {
      assert Events(h'.log) == Events(h.log) + [Removed(t, l'.op, l'.result.value)];
    }
  }

  lemma StepSeen(s: State, u: nat, c: Choice, t: nat)
    requires Inv(s) && u < |s.locals| && t < |s.locals|
    ensures var s' := Step(s, u, c); Through(ViewOf(s.heap, t, s.locals[t]), ViewOf(s'.heap, t, s'.locals[t]), t)
  {
    hide Core, LocalInv, StepThread, Through, LogStep, ArgumentStep;
    var s' := Step(s, u, c);
    KindNow(s.heap, u, s.locals[u]);
    EffectStep(s.heap, u, s.locals[u], c);
    ViewStep(s.heap, s'.heap, u, s.locals[u], s'.locals[u]);
    EitherStep(ViewOf(s.heap, t, s.locals[t]), ViewOf(s'.heap, t, s'.locals[t]), t);
  }

  // ------------------------------------------------------------------ every call

  ghost function Views(run: seq<State>, t: nat): seq<View>
    requires forall k :: 0 <= k < |run| ==> t < |run[k].locals|
  {
    seq(|run|, k requires 0 <= k < |run| => ViewOf(run[k].heap, t, run[k].locals[t]))
  }

  lemma Watched(run: seq<State>, t: nat)
    requires IsRun(run) && t < |run[0].locals|
    ensures forall k :: 0 <= k < |run| ==> t < |run[k].locals|
    ensures IsWatched(Views(run, t), t)
  {
    forall k | 0 <= k < |run| ensures t < |run[k].locals| {
      RunInv(run, k);
    }
    hide Core, LocalInv, StepThread, ViewOf, Inv;
    forall k: nat ensures ThroughAt(Views(run, t), t, k) {
      if k + 1 < |run| {
        RunInv(run, k);
        var u, c := StepAt(run, k + 1);
        StepSeen(run[k], u, c, t);
      }
    }
  }

  /** Thread `t` makes the call `c` at instant `i`, and is still in it at instant `k`. */
  ghost predicate Call(run: seq<State>, i: nat, k: nat, t: nat, c: Choice) {
    && i < k < |run| && t < |run[i].locals| && run[i].locals[t].pc.Idle? && run[i + 1] == Step(run[i], t, c)
    && forall j {:trigger run[j]} :: i < j <= k ==> t < |run[j].locals| && !run[j].locals[t].pc.Idle?
  }

  lemma CallStart(run: seq<State>, i: nat, k: nat, t: nat, c: Choice)
    requires Call(run, i, k, t, c)
    ensures var l := run[i + 1].locals[t]; l.enqueue == c.enqueue && (c.enqueue ==> l.item == c.item)
  {
    assert !run[i + 1].locals[t].pc.Idle?;
  }

  /** What a thread does in one call: an enqueue hands in its argument and takes nothing out; a dequeue takes out
      at most one item, which is the one it returns, and none if it returns false or has not returned yet. */
  lemma CallHasEffect(run: seq<State>, i: nat, k: nat, t: nat, c: Choice)
    requires IsRun(run) && Call(run, i, k, t, c)
    ensures var l := run[k].locals[t];
            var mine := Since(Events(run[k].heap.log), |run[i].heap.log|, t);
            && l.enqueue == c.enqueue
            && if c.enqueue then l.item == c.item && mine == [] && (l.pc.Return? ==> l.result.True?)
               else if !l.pc.Return? then mine == []
               else match l.result
                    case TrueValue(v) => mine == [Removed(t, l.op, v)]
                    case False => mine == []
                    case _ => false
  {
    RunInv(run, 0);
    RunInv(run, i);
    RunInv(run, k);
    if run[k].locals[t].pc.Return? { ReturnIs(run[k].heap, t, run[k].locals[t]); }
    hide Core, LocalInv, StepThread, Inv;
    Watched(run, t);
    CallStart(run, i, k, t, c);
    InCall(Views(run, t), t, i, k);
  }

  lemma ReturnIs(h: Heap, t: nat, l: Local)
    requires LocalInv(h, t, l) && l.pc.Return?
    ensures if l.enqueue then l.result.True? else l.result.TrueValue? || l.result.False?
  {
  }

  /** Outside its calls a thread does nothing. */
  lemma NothingBetweenCalls(run: seq<State>, i: nat, k: nat, t: nat)
    requires IsRun(run) && i <= k < |run| && t < |run[0].locals|
    requires forall j {:trigger run[j]} :: i <= j <= k ==> t < |run[j].locals| && run[j].locals[t].pc.Idle?
    ensures Since(Events(run[k].heap.log), |run[i].heap.log|, t) == []
  {
    Watched(run, t);
    BetweenCalls(Views(run, t), t, i, k);
  }

  // ------------------------------------------------------------------ what has been returned

  /** Some enqueue that was called with `x` has got to its return by instant `k`. */
  ghost predicate EnqueueReturned(run: seq<State>, k: nat, x: int) {
    exists j: nat, t: nat :: ReturnsEnqueue(run, j, t, x) && j <= k
  }

  ghost predicate ReturnsEnqueue(run: seq<State>, j: nat, t: nat, x: int) {
    && j < |run| && t < |run[j].locals|
    && run[j].locals[t].pc.Return? && run[j].locals[t].enqueue && run[j].locals[t].item == x
  }

  /** Some enqueue that was called with `x` is over before instant `k`. */
  ghost predicate Completed(run: seq<State>, k: nat, x: int) {
    exists j: nat, t: nat :: ReturnsEnqueue(run, j, t, x) && j < k < |run| && IdleAt(run, j + 1, t)
  }

  ghost predicate IdleAt(run: seq<State>, j: nat, t: nat) {
    j < |run| && t < |run[j].locals| && run[j].locals[t].pc.Idle?
  }

  /** Some dequeue has got to its return with `x` by instant `k`. */
  ghost predicate DequeueReturned(run: seq<State>, k: nat, x: int) {
    exists j: nat, t: nat :: ReturnsDequeue(run, j, t, x) && j <= k
  }

  ghost predicate ReturnsDequeue(run: seq<State>, j: nat, t: nat, x: int) {
    && j < |run| && t < |run[j].locals|
    && run[j].locals[t].pc.Return? && !run[j].locals[t].enqueue && run[j].locals[t].result.TrueValue?
    && run[j].locals[t].result.value == x
  }

  lemma KindAt(run: seq<State>, k: nat, t: nat)
    requires IsRun(run) && k < |run| && t < |run[k].locals|
    ensures KindOk(run[k].locals[t])
  {
    hide Core, LocalInv;
    RunInv(run, k);
    KindNow(run[k].heap, t, run[k].locals[t]);
  }

  /** Every removal in the log is that of a dequeue that was at its return with this item, and with this number. */
  lemma {:induction false} LoggedIsReturned(run: seq<State>, k: nat, a: nat)
    requires IsRun(run) && k < |run| && a < |run[k].heap.log|
    ensures var r := run[k].heap.log[a];
            exists j: nat :: ReturnsDequeue(run, j, r.tid, r.item) && j <= k && run[j].locals[r.tid].op == r.op
    decreases k
  {
    hide Core, LocalInv, StepThread, Inv;
    if k > 0 {
      var u, c := StepAt(run, k);
      KindAt(run, k - 1, u);
      EffectStep(run[k - 1].heap, u, run[k - 1].locals[u], c);
      hide IsRun;
      if a < |run[k - 1].heap.log| {
        assert run[k].heap.log[a] == run[k - 1].heap.log[a];
        LoggedIsReturned(run, k - 1, a);
      } else {
        var r := run[k].heap.log[a];
        assert ReturnsDequeue(run, k, r.tid, r.item);
      }
    }
  }

  /** The log says of exactly those items that they are gone that some dequeue has returned. */
  lemma DequeuedMeans(run: seq<State>, k: nat, x: int)
    requires IsRun(run) && k < |run|
    ensures Dequeued(run[k].heap, x) <==> DequeueReturned(run, k, x)
  {
    hide Core, IsRun, Step;
    if Dequeued(run[k].heap, x) {
      var a :| 0 <= a < |run[k].heap.log| && run[k].heap.log[a].item == x;
      LoggedIsReturned(run, k, a);
    }
    if DequeueReturned(run, k, x) {
      var j: nat, t: nat :| ReturnsDequeue(run, j, t, x) && j <= k;
      RunInv(run, j);
      ReturnLogged(run[j].heap, t, run[j].locals[t]);
      LogGrows(run, j, k);
      var a :| 0 <= a < |run[j].heap.log| && run[j].heap.log[a] == Removal(t, run[j].locals[t].op, x);
      assert run[k].heap.log[a] == run[j].heap.log[a];
    }
  }

  lemma ReturnLogged(h: Heap, t: nat, l: Local)
    requires LocalInv(h, t, l) && l.pc.Return? && !l.enqueue && l.result.TrueValue?
    ensures Removal(t, l.op, l.result.value) in h.log
  {
  }

  /** `done` are the items whose enqueue is over. */
  lemma {:induction false} DoneMeans(run: seq<State>, k: nat, x: int)
    requires IsRun(run) && k < |run|
    ensures x in run[k].heap.done <==> Completed(run, k, x)
    decreases k
  {
    hide Core, LocalInv, StepThread, Inv;
    if k > 0 {
      var u, c := StepAt(run, k);
      var s, s' := run[k - 1], run[k];
      KindAt(run, k - 1, u);
      DoneStep(s.heap, u, s.locals[u], c);
      DoneMeans(run, k - 1, x);
      hide IsRun;
      if x in s'.heap.done && x !in s.heap.done {
        assert ReturnsEnqueue(run, k - 1, u, x) && IdleAt(run, k - 1 + 1, u);
      }
      if Completed(run, k, x) && !Completed(run, k - 1, x) {
        var j: nat, t: nat :| ReturnsEnqueue(run, j, t, x) && j < k && IdleAt(run, j + 1, t);
        assert j == k - 1 && t == u;
      }
    }
  }

  /** A thread that has got to its return is still there, or its item is on record. */
  lemma {:induction false} ReturnIsDone(run: seq<State>, j: nat, k: nat, t: nat, x: int)
    requires IsRun(run) && j <= k < |run| && ReturnsEnqueue(run, j, t, x)
    ensures x in run[k].heap.done || ReturnsEnqueue(run, k, t, x)
    decreases k
  {
    hide Core, LocalInv, StepThread, Inv;
    if j < k {
      var u, c := StepAt(run, k);
      ReturnIsDone(run, j, k - 1, t, x);
      KindAt(run, k - 1, u);
      DoneStep(run[k - 1].heap, u, run[k - 1].locals[u], c);
    }
  }

  // ------------------------------------------------------------------ the promises, as a caller sees them

  /** At every instant, an item whose enqueue has got to its return has been returned by some dequeue, or it is in
      exactly one slot, of a segment reachable from head; never both. */
  lemma NoItemLost(run: seq<State>, k: nat, x: int)
    requires IsRun(run) && k < |run| && EnqueueReturned(run, k, x)
    ensures var h := run[k].heap;
            && (DequeueReturned(run, k, x) || exists s: nat, i: nat :: OnlyAt(h, x, s, i))
            && (DequeueReturned(run, k, x) ==> forall s: nat, i: nat {:trigger h.segs[s].items[i]} ::
                  s < |h.segs| && i < |h.segs[s].items| ==> h.segs[s].items[i].value != x)
  {
    hide Core, LocalInv, IsRun, Safe, OnlyAt;
    var j: nat, t: nat :| ReturnsEnqueue(run, j, t, x) && j <= k;
    ReturnIsDone(run, j, k, t, x);
    RunInv(run, j);
    RunInv(run, k);
    ItemIsSafe(run[k], t, x);
    SafeIsKept(run[k].heap, x);
    DequeuedMeans(run, k, x);
  }

  lemma ItemIsSafe(s: State, t: nat, x: int)
    requires Inv(s) && t < |s.locals|
    requires x in s.heap.done || (s.locals[t].pc.Return? && s.locals[t].enqueue && s.locals[t].item == x)
    ensures Safe(s.heap, x)
  {
    hide Items;
    assert LocalInv(s.heap, t, s.locals[t]);
  }

  /** A dequeue that returns false met, during the call, an instant at which every item whose enqueue was over had
      been returned by some dequeue. */
  lemma FalseMeansEmpty(run: seq<State>, k: nat, t: nat)
    requires IsRun(run) && k < |run| && t < |run[k].locals|
    requires run[k].locals[t].pc.Return? && !run[k].locals[t].enqueue && !run[k].locals[t].result.TrueValue?
    ensures exists i: nat :: i < k && |run[i].locals| == |run[k].locals| && run[i].locals[t].op == run[k].locals[t].op
                             && forall x :: Completed(run, i, x) ==> DequeueReturned(run, i, x)
  {
    hide Core, LocalInv, IsRun, Completed, DequeueReturned, Dequeued;
    DequeueFalse(run, k, t);
    var i: nat :| i < k && |run[i].locals| == |run[k].locals| && run[i].locals[t].op == run[k].locals[t].op
                  && NothingCommitted(run[i].heap);
    forall x | Completed(run, i, x) ensures DequeueReturned(run, i, x) {
      DoneMeans(run, i, x);
      DequeuedMeans(run, i, x);
    }
  }

  /** Some enqueue has been called with `x` before instant `k`. */
  ghost predicate EnqueueCalled(run: seq<State>, k: nat, x: int) {
    exists i: nat, t: nat, c :: Starts(run, i, t, c) && i < k && c.enqueue && c.item == x
  }

  ghost predicate Starts(run: seq<State>, i: nat, t: nat, c: Choice) {
    Call(run, i, i + 1, t, c)
  }

  /** What a dequeue returns is the argument of an enqueue called before. */
  lemma ReturnedWasCalled(run: seq<State>, k: nat, t: nat, x: int)
    requires IsRun(run) && ReturnsDequeue(run, k, t, x)
    ensures EnqueueCalled(run, k, x)
  {
    hide Core, LocalInv, IsRun, Step;
    ReturnedOnce(run, k, k, t, t);
    OwnerCalled(run, k, x);
  }

  lemma {:induction false} OwnerCalled(run: seq<State>, k: nat, x: int)
    requires IsRun(run) && k < |run| && x in run[k].heap.owner
    ensures EnqueueCalled(run, k, x)
    decreases k
  {
    hide Core, LocalInv, StepThread, Inv, Starts;
    if k > 0 {
      var u, c := StepAt(run, k);
      RunInv(run, k);
      KindAt(run, k - 1, u);
      OwnerStep(run[k - 1].heap, u, run[k - 1].locals[u], c);
      hide IsRun;
      if x in run[k - 1].heap.owner {
        OwnerCalled(run, k - 1, x);
      } else {
        CallNow(run, k, u, c);
      }
    }
  }

  lemma CallNow(run: seq<State>, k: nat, u: nat, c: Choice)
    requires 0 < k < |run| && u < |run[k - 1].locals| && run[k] == Step(run[k - 1], u, c)
    requires run[k - 1].locals[u].pc.Idle? && !run[k].locals[u].pc.Idle?
    ensures Starts(run, k - 1, u, c)
  {
  }
}
