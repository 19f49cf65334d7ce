/** A dequeue of the k-FIFO queue that returns false met an instant without committed items when it read
    tail, but not necessarily when it then checked that head had not changed: between the two, an
    enqueue can fill a new segment without touching head. */
module KFifoRecheck {
  import opened Basics
  import opened Segments
  import opened KFifoModel

  const DEQ := Choice(false, NULL, 0)

  function EnqueueOf(x: int): Choice {
    Choice(true, x, 0)
  }

  /** Consecutive steps of thread `u`. */
  ghost function Steps(h: Heap, u: nat, l: Local, c: Choice, n: nat): (Heap, Local)
    decreases n
  {
    if n == 0 then (h, l) else
      var r := StepThread(h, u, l, c);
      Steps(r.0, u, r.1, c, n - 1)
  }

  lemma {:induction false} ExtendRun(run: seq<State>, u: nat, c: Choice, n: nat) returns (run': seq<State>)
    requires IsRun(run) && u < |run[|run| - 1].locals|
    ensures IsRun(run') && |run'| >= |run|
    ensures var s := run[|run| - 1];
            var r := Steps(s.heap, u, s.locals[u], c, n);
            run'[|run'| - 1] == State(r.0, s.locals[u := r.1])
    decreases n
  {
    hide StepThread, Init;
    var s := run[|run| - 1];
    if n == 0 {
      run' := run;
      assert s.locals[u := s.locals[u]] == s.locals;
    } else {
      var s' := Step(s, u, c);
      var more := run + [s'];
      assert Next(s, s');
      forall i | 0 <= i < |more| - 1 ensures Next(more[i], more[i + 1]) {
        assert i < |run| - 1 ==> Next(run[i], run[i + 1]);
      }
      run' := ExtendRun(more, u, c, n - 1);
      var r := Steps(s'.heap, u, s'.locals[u], c, n - 1);
      assert s'.locals[u := r.1] == s.locals[u := r.1];
    }
  }

  const ANY := Ptr(0, 0)
  const IDLE := Local(Idle, false, NULL, 0, 0, {}, None, EMPTY, EMPTY, ANY, ANY, ANY, ANY, ANY, ANY, NoResult, 0, false)

  function InitState(): State {
    State(InitHeap(1), [IDLE, IDLE, IDLE])
  }

  /** The dequeue has scanned the only slot, which is empty, and has read tail. */
  function Checking(): Local {
    IDLE.(pc := DqCheckHead, i := 1, seen := {0}, op := 1, sawEmpty := true)
  }

  /** The steps so far, and one more. */
  lemma Then(h: Heap, u: nat, l: Local, c: Choice, n: nat, r: (Heap, Local))
    requires n > 0 && StepThread(h, u, l, c) == r
    ensures Steps(h, u, l, c, n) == Steps(r.0, u, r.1, c, n - 1)
  {
  }

  lemma DequeueUpToCheck()
    ensures Steps(InitHeap(1), 0, IDLE, DEQ, 4) == (InitHeap(1), Checking())
  {
    hide Steps, StepEnqueue, StepCommitted, StepAdvanceTail, StepAdvanceHead;
    var h := InitHeap(1);
    var l1 := IDLE.(pc := DqReadHead, op := 1);
    var l2 := l1.(pc := DqScan);
    var l3 := l2.(pc := DqReadTail, i := 1, seen := l2.seen + {0});
    Then(h, 0, IDLE, DEQ, 4, (h, l1));
    Then(h, 0, l1, DEQ, 3, (h, l2));
    assert SlotAt(h, 0, 0) == EMPTY;
    Then(h, 0, l2, DEQ, 2, (h, l3));
    assert Quiescent(h);
    assert l2.seen + {0} == {0};
    Then(h, 0, l3, DEQ, 1, (h, Checking()));
    NoMore(h, 0, Checking(), DEQ);
  }

  lemma NoMore(h: Heap, u: nat, l: Local, c: Choice)
    ensures Steps(h, u, l, c, 0) == (h, l)
  {
  }

  /** Item 1 fills segment 0; its enqueue is not committed. */
  function Filled(): Heap {
    PutItem(InitHeap(1).(owner := map[1 := 2]), 0, 0, Slot(1, 1))
  }

  lemma EnqueueUpToCas()
    ensures Steps(InitHeap(1), 2, IDLE, EnqueueOf(1), 6).0 == Filled()
  {
    hide Steps, StepDequeue, StepCommitted, StepAdvanceTail, StepAdvanceHead, PutItem;
    var h0 := InitHeap(1);
    var h := h0.(owner := map[1 := 2]);
    var c := EnqueueOf(1);
    var l3 := IDLE.(pc := EqScan, enqueue := true, item := 1, op := 1);
    EnqueueUpToScan(h0, 2, IDLE, c, 3);
    var l4 := l3.(pc := EqCheckTail, found := Some(0));
    var l5 := l4.(pc := EqCas, newItem := Slot(1, 1));
    assert SlotAt(h, 0, 0) == EMPTY;
    Then(h, 2, l3, c, 3, (h, l4));
    Then(h, 2, l4, c, 2, (h, l5));
    Then(h, 2, l5, c, 1, (Filled(), l5.(pc := CmCheckSlot)));
    NoMore(Filled(), 2, l5.(pc := CmCheckSlot), c);
  }

  /** The start of an enqueue, up to the scan of the segment at tail. */
  lemma EnqueueUpToScan(h0: Heap, u: nat, l0: Local, c: Choice, n: nat)
    requires h0.k == 1 && l0 == IDLE && c == EnqueueOf(c.item) && c.item != NULL && c.item !in h0.owner
    requires h0.head == Ptr(0, 0) && h0.tail == Ptr(0, 0)
    ensures Steps(h0, u, l0, c, n + 3) ==
            Steps(h0.(owner := h0.owner[c.item := u]), u, l0.(pc := EqScan, enqueue := true, item := c.item, op := 1), c, n)
  {
    hide Steps, StepDequeue, StepCommitted, StepAdvanceTail, StepAdvanceHead;
    var h := h0.(owner := h0.owner[c.item := u]);
    var l1 := l0.(pc := EqReadTail, enqueue := true, item := c.item, op := 1);
    Then(h0, u, l0, c, n + 3, (h, l1));
    Then(h, u, l1, c, n + 2, (h, l1.(pc := EqReadHead)));
    Then(h, u, l1.(pc := EqReadHead), c, n + 1, (h, l1.(pc := EqScan)));
  }

  /** Item 2 finds segment 0 full. */
  function FullLocal(): Local {
    IDLE.(pc := ATReadTail, enqueue := true, item := 2, op := 1, i := 1, seen := {0})
  }

  lemma EnqueueFindsFull(h0: Heap, n: nat)
    requires h0 == Filled()
    ensures Steps(h0, 1, IDLE, EnqueueOf(2), n + 5) == Steps(h0.(owner := h0.owner[2 := 1]), 1, FullLocal(), EnqueueOf(2), n)
  {
    hide Steps, StepDequeue, StepCommitted, StepAdvanceTail, StepAdvanceHead;
    var h := h0.(owner := h0.owner[2 := 1]);
    var c := EnqueueOf(2);
    EnqueueUpToScan(h0, 1, IDLE, c, n + 2);
    var l3 := IDLE.(pc := EqScan, enqueue := true, item := 2, op := 1);
    var l4 := l3.(pc := EqCheckTail, i := 1, seen := l3.seen + {0});
    assert SlotAt(h, 0, 0) == Slot(1, 1);
    Then(h, 1, l3, c, n + 2, (h, l4));
    assert l3.seen + {0} == {0};
    Then(h, 1, l4, c, n + 1, (h, FullLocal()));
  }

  /** Segment 1 is linked and tail moves there. */
  function Grown(h: Heap): Heap {
    LinkSegment(h, 0, 1).(tail := Ptr(1, 1))
  }

  lemma EnqueueAddsSegment(h: Heap, n: nat)
    requires h.k == 1 && |h.segs| == 1 && h.segs[0].next == Ptr(NIL, 0) && h.tail == Ptr(0, 0)
    ensures Steps(h, 1, FullLocal(), EnqueueOf(2), n + 5) ==
            Steps(Grown(h), 1, FullLocal().(pc := EqReadTail, next := Ptr(1, 1)), EnqueueOf(2), n)
  {
    hide Steps, StepDequeue, StepCommitted, StepEnqueue, StepAdvanceHead;
    var c := EnqueueOf(2);
    var l := FullLocal();
    var l3 := l.(pc := ATCasNext, next := Ptr(NIL, 0));
    var l4 := l.(pc := ATCasNewTail, next := Ptr(1, 1));
    Then(h, 1, l, c, n + 5, (h, l.(pc := ATReadNext)));
    Then(h, 1, l.(pc := ATReadNext), c, n + 4, (h, l.(pc := ATCheckTail, next := Ptr(NIL, 0))));
    Then(h, 1, l.(pc := ATCheckTail, next := Ptr(NIL, 0)), c, n + 3, (h, l3));
    Then(h, 1, l3, c, n + 2, (LinkSegment(h, 0, 1), l4));
    Then(LinkSegment(h, 0, 1), 1, l4, c, n + 1, (Grown(h), l4.(pc := EqReadTail)));
  }

  function InSegment1(): Local {
    IDLE.(pc := CmCheckSlot, enqueue := true, item := 2, op := 1, next := Ptr(1, 1), tailOld := Ptr(1, 1),
          found := Some(0), newItem := Slot(2, 1))
  }

  lemma EnqueueInSegment1(h: Heap, n: nat)
    requires h.k == 1 && |h.segs| == 2 && h.segs[1] == NewSegment(1) && h.tail == Ptr(1, 1) && h.head == Ptr(0, 0)
    ensures Steps(h, 1, FullLocal().(pc := EqReadTail, next := Ptr(1, 1)), EnqueueOf(2), n + 5) ==
            Steps(PutItem(h, 1, 0, Slot(2, 1)), 1, InSegment1(), EnqueueOf(2), n)
  {
    hide Steps, StepDequeue, StepCommitted, StepAdvanceTail, StepAdvanceHead, PutItem;
    var c := EnqueueOf(2);
    var l0 := FullLocal().(pc := EqReadTail, next := Ptr(1, 1));
    var l1 := l0.(pc := EqReadHead, tailOld := Ptr(1, 1));
    var l2 := l1.(pc := EqScan, i := 0, seen := {});
    var l3 := l2.(pc := EqCheckTail, found := Some(0));
    Then(h, 1, l0, c, n + 5, (h, l1));
    Then(h, 1, l1, c, n + 4, (h, l2));
    assert SlotAt(h, 1, 0) == EMPTY;
    Then(h, 1, l2, c, n + 3, (h, l3));
    Then(h, 1, l3, c, n + 2, (h, InSegment1().(pc := EqCas)));
    Then(h, 1, InSegment1().(pc := EqCas), c, n + 1, (PutItem(h, 1, 0, Slot(2, 1)), InSegment1()));
  }

  lemma MarkAheadFrame(h: Heap)
    ensures var h' := MarkAhead(h, 2, 1); h'.segs == h.segs && h'.head == h.head && h'.log == h.log && h'.k == h.k
  {
  }

  lemma EnqueueCommits(h: Heap)
    requires h.k == 1 && |h.segs| == 2 && !h.segs[1].deleted && h.head == Ptr(0, 0)
    requires SlotAt(h, 1, 0) == Slot(2, 1)
    ensures Steps(h, 1, InSegment1(), EnqueueOf(2), 5).0 == (var h' := MarkAhead(h, 2, 1); h'.(done := h'.done + {2}))
  {
    MarkAheadFrame(h);
    hide Steps, StepDequeue, StepEnqueue, StepAdvanceTail, StepAdvanceHead, MarkAhead, SlotAt;
    var c := EnqueueOf(2);
    var l := InSegment1();
    var h' := MarkAhead(h, 2, 1);
    var h'' := h'.(done := h'.done + {2});
    Then(h, 1, l, c, 5, (h, l.(pc := CmReadHead)));
    Then(h, 1, l.(pc := CmReadHead), c, 4, (h', l.(pc := CmReadDeleted)));
    Then(h', 1, l.(pc := CmReadDeleted), c, 3, (h', l.(pc := CmReadDeleted2)));
    Then(h', 1, l.(pc := CmReadDeleted2), c, 2, (h', l.(pc := Return, result := True)));
    Then(h', 1, l.(pc := Return, result := True), c, 1, (h'', l.(pc := Idle, result := True)));
    NoMore(h'', 1, l.(pc := Idle, result := True), c);
  }

  lemma EnqueueOf2()
    ensures var h := Steps(Filled(), 1, IDLE, EnqueueOf(2), 20).0;
            h.head == Ptr(0, 0) && 2 in h.done && h.log == []
  {
    hide Steps, StepThread;
    var h0 := Filled();
    EnqueueFindsFull(h0, 15);
    var h1 := h0.(owner := h0.owner[2 := 1]);
    EnqueueAddsSegment(h1, 10);
    var h2 := Grown(h1);
    EnqueueInSegment1(h2, 5);
    var h3 := PutItem(h2, 1, 0, Slot(2, 1));
    EnqueueCommits(h3);
    MarkAheadFrame(h3);
  }

  lemma LastCheck(h: Heap)
    requires h.head == Ptr(0, 0)
    ensures StepThread(h, 0, Checking(), DEQ) == (h, Checking().(pc := Return, result := False))
  {
  }

  /** A run in which a dequeue returns false although, when it checked head, the item of an enqueue that
      had returned was in the queue. */
  lemma RecheckTooLate() returns (run: seq<State>)
    ensures IsRun(run) && |run| >= 2
    ensures var s, s' := run[|run| - 2], run[|run| - 1];
            && |s.locals| == 3 == |s'.locals| && s' == Step(s, 0, DEQ)
            && s.locals[0].pc.DqCheckHead? && s'.locals[0].pc.Return? && s'.locals[0].result.False?
            && 2 in s.heap.done && s.heap.log == []
  {
    hide StepThread, Steps;
    var run0 := [InitState()];
    assert InitState().locals[0] == IDLE;
    var run1 := ExtendRun(run0, 0, DEQ, 4);
    DequeueUpToCheck();
    var run2 := ExtendRun(run1, 2, EnqueueOf(1), 6);
    EnqueueUpToCas();
    var run3 := ExtendRun(run2, 1, EnqueueOf(2), 20);
    EnqueueOf2();
    var s := run3[|run3| - 1];
    LastCheck(s.heap);
    var s' := Step(s, 0, DEQ);
    run := run3 + [s'];
    assert Next(s, s');
    forall i | 0 <= i < |run| - 1 ensures Next(run[i], run[i + 1]) {
      assert i < |run3| - 1 ==> Next(run3[i], run3[i + 1]);
    }
  }
}
