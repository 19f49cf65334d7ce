/** The promises of the k-FIFO queue, for every run of any number of threads and any random numbers. */
module KFifoTheorems {
  import opened Basics
  import opened Segments
  import opened KFifoModel
  import opened KFifoInvariant
  import opened KFifoActions
  import opened KFifoStable
  import opened KFifoSteps

  // ------------------------------------------------------------------ the invariant holds in every run

  lemma InitInv(s: State)
    requires Init(s)
    ensures Inv(s)
  {
    var h := s.heap;
    forall x ensures ItemOk(h, x) {}
    forall n: nat, i: nat ensures SlotOk(h, n, i) {}
    assert SegOk(h, 0);
  }

  lemma StepInv(s: State, u: nat, c: Choice)
    requires Inv(s) && u < |s.locals|
    ensures Inv(Step(s, u, c)) && Guarantee(s.heap, Step(s, u, c).heap, u)
  {
    hide Core, LocalInv, StepThread, Rely;
    ThreadKeeps(s.heap, u, s.locals[u], c);
    var s' := Step(s, u, c);
    forall t: nat | t < |s'.locals| ensures LocalInv(s'.heap, t, s'.locals[t]) {
      if t != u {
        assert Rely(s.heap, s'.heap, t);
        Stable(s.heap, s'.heap, t, s.locals[t]);
      }
    }
  }

  lemma {:induction false} RunInv(run: seq<State>, k: nat)
    requires IsRun(run) && k < |run|
    ensures Inv(run[k]) && |run[k].locals| == |run[0].locals|
  {
    if k == 0 {
      InitInv(run[0]);
    } else {
      RunInv(run, k - 1);
      var u, c := StepAt(run, k);
      StepInv(run[k - 1], u, c);
    }
  }

  lemma StepAt(run: seq<State>, k: nat) returns (u: nat, c: Choice)
    requires IsRun(run) && 0 < k < |run|
    ensures u < |run[k - 1].locals| && run[k] == Step(run[k - 1], u, c)
  {
    assert Next(run[k - 1], run[k - 1 + 1]);
    u, c :| u < |run[k - 1].locals| && run[k] == Step(run[k - 1], u, c);
  }

  // ------------------------------------------------------------------ no item is lost

  /** Item `x` is in slot `i` of segment `s` and in no other one; the segment is reachable from head. */
  ghost predicate OnlyAt(h: Heap, x: int, s: nat, i: nat) {
    && h.head.seg <= s <= h.tail.seg < |h.segs| && i < h.k && |h.segs[s].items| == h.k && h.segs[s].items[i].value == x
    && (forall s1: nat, i1: nat {:trigger h.segs[s1].items[i1]} ::
          s1 < |h.segs| && i1 < |h.segs[s1].items| && h.segs[s1].items[i1].value == x ==> s1 == s && i1 == i)
    && forall s1: nat {:trigger h.segs[s1].next} :: h.head.seg <= s1 < s ==> h.segs[s1].next.seg == s1 + 1
  }

  ghost predicate Dequeued(h: Heap, x: int) {
    exists j :: 0 <= j < |h.log| && h.log[j].item == x
  }

  lemma SafeIsKept(h: Heap, x: int)
    requires Core(h) && Safe(h, x)
    ensures Dequeued(h, x) || exists s: nat, i: nat :: OnlyAt(h, x, s, i)
    ensures Dequeued(h, x) ==> forall s: nat, i: nat {:trigger h.segs[s].items[i]} ::
                                 s < |h.segs| && i < |h.segs[s].items| ==> h.segs[s].items[i].value != x
  {
    AtItem(h, x);
    forall s: nat, i: nat | s < |h.segs| && i < |h.segs[s].items| && h.segs[s].items[i].value == x
      ensures h.status[x].Placed? && h.status[x].seg == s && h.status[x].slot == i
    {
      AtSlot(h, s, i);
      assert SlotAt(h, s, i).value == x;
    }
    if h.status[x].Placed? {
      forall s: nat | s < |h.segs| ensures SegOk(h, s) {}
      assert OnlyAt(h, x, h.status[x].seg, h.status[x].slot);
    }
  }

  /** At every instant, the item of every enqueue that has returned true has been dequeued, or it is in
      exactly one slot, of a segment reachable from head; never both. */
  lemma NoItemLost(run: seq<State>, k: nat, x: int)
    requires IsRun(run) && k < |run| && x in run[k].heap.done
    ensures var h := run[k].heap;
            && (Dequeued(h, x) || exists s: nat, i: nat :: OnlyAt(h, x, s, i))
            && (Dequeued(h, x) ==> forall s: nat, i: nat {:trigger h.segs[s].items[i]} ::
                                     s < |h.segs| && i < |h.segs[s].items| ==> h.segs[s].items[i].value != x)
  {
    RunInv(run, k);
    SafeIsKept(run[k].heap, x);
  }

  /** The same at the moment an enqueue returns. */
  lemma EnqueueReturns(run: seq<State>, k: nat, t: nat)
    requires IsRun(run) && k < |run| && t < |run[k].locals| && run[k].locals[t].pc.Return? && run[k].locals[t].enqueue
    ensures var h, l := run[k].heap, run[k].locals[t];
            l.result.True? && (Dequeued(h, l.item) || exists s: nat, i: nat :: OnlyAt(h, l.item, s, i))
  {
    RunInv(run, k);
    SafeIsKept(run[k].heap, run[k].locals[t].item);
  }

  // ------------------------------------------------------------------ no item is returned twice

  lemma {:induction false} LogGrows(run: seq<State>, i: nat, k: nat)
    requires IsRun(run) && i <= k < |run|
    ensures run[i].heap.log <= run[k].heap.log
    decreases k - i
  {
    hide Core, LocalInv, StepThread;
    if i < k {
      LogGrows(run, i, k - 1);
      RunInv(run, k - 1);
      var u, c := StepAt(run, k);
      StepInv(run[k - 1], u, c);
      assert Rely(run[k - 1].heap, run[k].heap, u + 1);
    }
  }

  /** What a dequeue returns was handed to an enqueue, and no other dequeue, of any thread, at any time,
      returns it. */
  lemma ReturnedOnce(run: seq<State>, i: nat, k: nat, t: nat, u: nat)
    requires IsRun(run) && i <= k < |run| && t < |run[i].locals| && u < |run[k].locals|
    requires run[i].locals[t].pc.Return? && !run[i].locals[t].enqueue && run[i].locals[t].result.TrueValue?
    requires run[k].locals[u].pc.Return? && !run[k].locals[u].enqueue && run[k].locals[u].result == run[i].locals[t].result
    ensures t == u && run[i].locals[t].op == run[k].locals[u].op
    ensures run[i].locals[t].result.value in run[i].heap.owner
  {
    RunInv(run, i);
    RunInv(run, k);
    LogGrows(run, i, k);
    var v := run[i].locals[t].result.value;
    AtItem(run[i].heap, v);
    var a :| 0 <= a < |run[i].heap.log| && run[i].heap.log[a] == Removal(t, run[i].locals[t].op, v);
    var b :| 0 <= b < |run[k].heap.log| && run[k].heap.log[b] == Removal(u, run[k].locals[u].op, v);
    assert run[k].heap.log[a] == run[i].heap.log[a];
  }

  // ------------------------------------------------------------------ empty

  /** No item whose enqueue has returned is in the queue. */
  ghost predicate NothingCommitted(h: Heap) {
    forall x {:trigger x in h.done} :: x in h.done ==> Dequeued(h, x)
  }

  lemma QuiescentMeans(h: Heap)
    requires Core(h) && Quiescent(h)
    ensures NothingCommitted(h)
  {
  }

  /** `sawEmpty` becomes true only when tail is read. */
  lemma SawEmptyStep(h: Heap, u: nat, l: Local, c: Choice)
    ensures var l' := StepThread(h, u, l, c).1;
            l'.sawEmpty ==> l'.op == l.op && (l.sawEmpty || Quiescent(h))
  {
    hide Quiescent;
  }

  lemma {:induction false} EmptyInstant(run: seq<State>, k: nat, t: nat)
    requires IsRun(run) && k < |run| && t < |run[k].locals|
    requires run[k].locals[t].sawEmpty
    ensures exists i: nat :: i < k && |run[i].locals| == |run[k].locals| && run[i].locals[t].op == run[k].locals[t].op
                             && NothingCommitted(run[i].heap)
  {
    hide Core, LocalInv, StepThread, Quiescent, NothingCommitted;
    RunInv(run, k);
    RunInv(run, k - 1);
    var u, c := StepAt(run, k);
    if u == t {
      SawEmptyStep(run[k - 1].heap, t, run[k - 1].locals[t], c);
    }
    if run[k - 1].locals[t].sawEmpty {
      EmptyInstant(run, k - 1, t);
    } else {
      QuiescentMeans(run[k - 1].heap);
    }
  }

  /** A dequeue that returns false met, during the call, an instant at which no item of a returned
      enqueue was in the queue. */
  lemma DequeueFalse(run: seq<State>, k: nat, t: nat)
    requires IsRun(run) && k < |run| && t < |run[k].locals|
    requires run[k].locals[t].pc.Return? && !run[k].locals[t].enqueue && !run[k].locals[t].result.TrueValue?
    ensures run[k].locals[t].result.False?
    ensures exists i: nat :: i < k && |run[i].locals| == |run[k].locals| && run[i].locals[t].op == run[k].locals[t].op
                             && NothingCommitted(run[i].heap)
  {
    RunInv(run, k);
    EmptyInstant(run, k, t);
  }

  /** At the check of head before a dequeue returns false, every committed item still in the queue is
      beyond head; so if tail has not left head since it was read, there is none. */
  lemma AtRecheck(run: seq<State>, k: nat, t: nat)
    requires IsRun(run) && k < |run| && t < |run[k].locals| && run[k].locals[t].pc.DqCheckHead?
    requires run[k].locals[t].found.None? && run[k].heap.head == run[k].locals[t].headOld
    ensures var h := run[k].heap;
            && (NothingCommitted(h) <==>
                  forall s: nat, i: nat {:trigger SlotAt(h, s, i)} :: s > h.head.seg ==> SlotAt(h, s, i).value !in h.done)
            && (h.tail.seg == h.head.seg ==> NothingCommitted(h))
  {
    RunInv(run, k);
    var h, l := run[k].heap, run[k].locals[t];
    forall x | x in h.done && !Dequeued(h, x)
      ensures h.status[x].Placed? && h.head.seg < h.status[x].seg <= h.tail.seg
              && SlotAt(h, h.status[x].seg, h.status[x].slot).value == x
    {
      AtItem(h, x);
      assert Passed(h, l.headOld, l.seen, x);
    }
    forall s: nat, i: nat | s > h.head.seg && SlotAt(h, s, i).value in h.done
      ensures !Dequeued(h, SlotAt(h, s, i).value)
    {
      AtItem(h, SlotAt(h, s, i).value);
      AtSlot(h, s, i);
    }
  }
}
