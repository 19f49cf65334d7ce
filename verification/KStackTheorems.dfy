/** The promises of the k-stack, for every run of any number of threads and any random numbers. */
module KStackTheorems {
  import opened Basics
  import opened Segments
  import opened KStackModel
  import opened KStackInvariant
  import opened KStackActions
  import opened KStackStable
  import opened KStackSteps

  // ------------------------------------------------------------------ the invariant holds in every run

  lemma InitInv(s: State)
    requires Init(s)
    ensures Inv(s)
  {
    var h := s.heap;
    forall x ensures ItemOk(h, x) {}
    forall n: nat, i: nat ensures SlotOk(h, n, i) {}
    forall i: nat ensures LinkOk(h, i) {}
    assert h.live[0] == 0;
    assert SegOk(h, 0);
  }

  lemma StepInv(s: State, u: nat, c: Choice)
    requires Inv(s) && u < |s.locals|
    ensures Inv(Step(s, u, c)) && Guarantee(s.heap, Step(s, u, c).heap, u)
  {
    hide Core, LocalInv, StepThread, Rely;
    ThreadKeeps(s.heap, u, s.locals[u], c);
    var s' := Step(s, u, c);
    forall t: nat | t < |s'.locals| ensures LocalInv(s'.heap, t, s'.locals[t]) {
      if t != u {
        assert Rely(s.heap, s'.heap, t);
        Stable(s.heap, s'.heap, t, s.locals[t]);
      }
    }
  }

  lemma StepAt(run: seq<State>, k: nat) returns (u: nat, c: Choice)
    requires IsRun(run) && 0 < k < |run|
    ensures u < |run[k - 1].locals| && run[k] == Step(run[k - 1], u, c)
  {
    assert Next(run[k - 1], run[k - 1 + 1]);
    u, c :| u < |run[k - 1].locals| && run[k] == Step(run[k - 1], u, c);
  }

  lemma {:induction false} RunInv(run: seq<State>, k: nat)
    requires IsRun(run) && k < |run|
    ensures Inv(run[k]) && |run[k].locals| == |run[0].locals|
  {
    if k == 0 {
      InitInv(run[0]);
    } else {
      RunInv(run, k - 1);
      var u, c := StepAt(run, k);
      StepInv(run[k - 1], u, c);
    }
  }

  // ------------------------------------------------------------------ no item is lost

  /** Segment `s` is reachable from top: `path` leads there through next pointers. */
  ghost predicate Reachable(h: Heap, s: nat, path: seq<nat>) {
    && |path| > 0 && path[0] == h.top.seg && path[|path| - 1] == s
    && (forall i {:trigger path[i]} :: 0 <= i < |path| ==> path[i] < |h.segs|)
    && forall i :: 0 <= i < |path| - 1 ==> h.segs[path[i]].next == path[i + 1]
  }

  function Backwards(live: seq<nat>, i: nat): seq<nat>
    requires i < |live|
  {
    seq(|live| - i, j requires 0 <= j < |live| - i => live[|live| - 1 - j])
  }

  lemma LiveIsReachable(h: Heap, i: nat)
    requires Shape(h) && i < |h.live|
    ensures Reachable(h, h.live[i], Backwards(h.live, i))
  {
    var path := Backwards(h.live, i);
    forall j | 0 <= j < |path| - 1 ensures h.segs[path[j]].next == path[j + 1] {
      AtLink(h, |h.live| - 1 - j);
    }
  }

  /** Item `x` is in slot `i` of segment `s` and in no other one; the segment is in the stack. */
  ghost predicate OnlyAt(h: Heap, x: int, s: nat, i: nat) {
    && s < |h.segs| && i < h.k && |h.segs[s].items| == h.k && h.segs[s].items[i].value == x
    && (forall s1: nat, i1: nat {:trigger h.segs[s1].items[i1]} ::
          s1 < |h.segs| && i1 < |h.segs[s1].items| && h.segs[s1].items[i1].value == x ==> s1 == s && i1 == i)
    && exists path :: Reachable(h, s, path)
  }

  ghost predicate Popped(h: Heap, x: int) {
    exists j :: 0 <= j < |h.log| && h.log[j].item == x
  }

  lemma SafeIsKept(h: Heap, x: int)
    requires Core(h) && Safe(h, x)
    ensures Popped(h, x) || exists s: nat, i: nat :: OnlyAt(h, x, s, i)
    ensures Popped(h, x) ==> forall s: nat, i: nat {:trigger h.segs[s].items[i]} ::
                               s < |h.segs| && i < |h.segs[s].items| ==> h.segs[s].items[i].value != x
  {
    AtItem(h, x);
    forall s: nat, i: nat | s < |h.segs| && i < |h.segs[s].items| && h.segs[s].items[i].value == x
      ensures h.status[x].Placed? && h.status[x].seg == s && h.status[x].slot == i
    {
      AtSlot(h, s, i);
      assert SlotAt(h, s, i).value == x;
    }
    if h.status[x].Placed? {
      var s, i := h.status[x].seg, h.status[x].slot;
      assert SegOk(h, s);
      var j: nat :| j < |h.live| && h.live[j] == s;
      LiveIsReachable(h, j);
      assert OnlyAt(h, x, s, i);
    }
  }

  /** At every instant, the item of every push that has returned true has been popped, or it is in
      exactly one slot, of a segment reachable from top; never both. */
  lemma NoItemLost(run: seq<State>, k: nat, x: int)
    requires IsRun(run) && k < |run| && x in run[k].heap.done
    ensures var h := run[k].heap;
            && (Popped(h, x) || exists s: nat, i: nat :: OnlyAt(h, x, s, i))
            && (Popped(h, x) ==> forall s: nat, i: nat {:trigger h.segs[s].items[i]} ::
                                   s < |h.segs| && i < |h.segs[s].items| ==> h.segs[s].items[i].value != x)
  {
    hide Core, LocalInv;
    RunInv(run, k);
    DoneIsSafe(run[k].heap, x);
    SafeIsKept(run[k].heap, x);
  }

  lemma DoneIsSafe(h: Heap, x: int)
    requires Core(h) && x in h.done
    ensures Safe(h, x)
  {
  }

  /** The same at the moment a push returns. */
  lemma PushReturns(run: seq<State>, k: nat, t: nat)
    requires IsRun(run) && k < |run| && t < |run[k].locals| && run[k].locals[t].pc.Return? && run[k].locals[t].push
    ensures var h, l := run[k].heap, run[k].locals[t];
            l.result.True? && (Popped(h, l.item) || exists s: nat, i: nat :: OnlyAt(h, l.item, s, i))
  {
    hide Core;
    RunInv(run, k);
    SafeIsKept(run[k].heap, run[k].locals[t].item);
  }

  // ------------------------------------------------------------------ no item is popped twice

  lemma {:induction false} LogGrows(run: seq<State>, i: nat, k: nat)
    requires IsRun(run) && i <= k < |run|
    ensures run[i].heap.log <= run[k].heap.log
    decreases k - i
  {
    hide Core, LocalInv, StepThread;
    if i < k {
      LogGrows(run, i, k - 1);
      RunInv(run, k - 1);
      var u, c := StepAt(run, k);
      StepInv(run[k - 1], u, c);
      assert Rely(run[k - 1].heap, run[k].heap, u + 1);
    }
  }

  /** What a pop returns was handed to a push, and no other pop, of any thread, at any time, returns it. */
  lemma PoppedOnce(run: seq<State>, i: nat, k: nat, t: nat, u: nat)
    requires IsRun(run) && i <= k < |run| && t < |run[i].locals| && u < |run[k].locals|
    requires run[i].locals[t].pc.Return? && !run[i].locals[t].push && run[i].locals[t].result.TrueValue?
    requires run[k].locals[u].pc.Return? && !run[k].locals[u].push && run[k].locals[u].result == run[i].locals[t].result
    ensures t == u && run[i].locals[t].op == run[k].locals[u].op
    ensures run[i].locals[t].result.value in run[i].heap.owner
  {
    hide Shape;
    RunInv(run, i);
    RunInv(run, k);
    LogGrows(run, i, k);
    var v := run[i].locals[t].result.value;
    AtItem(run[i].heap, v);
    var a :| 0 <= a < |run[i].heap.log| && run[i].heap.log[a] == Removal(t, run[i].locals[t].op, v);
    var b :| 0 <= b < |run[k].heap.log| && run[k].heap.log[b] == Removal(u, run[k].locals[u].op, v);
    assert run[k].heap.log[a] == run[i].heap.log[a];
  }

  // ------------------------------------------------------------------ empty

  /** The thread has a snapshot of the segment taken between the passes of is_empty. */
  predicate HasSnap(l: Local) {
    l.pc.EmptySecond? || l.pc.PopCheckTop2? || (l.pc.Return? && !l.push && l.result.False?)
  }

  /** A snapshot is what the segment and top were. */
  ghost predicate SnapKept(h: Heap, l: Local, l': Local) {
    HasSnap(l') ==>
      && l'.op == l.op && l'.topOld == l.topOld
      && if HasSnap(l) then l'.snap == l.snap && l'.snapTop == l.snapTop
         else l'.snap == SegAt(h, l.topOld.seg).items && l'.snapTop == h.top
  }

  lemma SnapInEmpty(h: Heap, u: nat, l: Local)
    ensures InEmpty(l.pc) ==> SnapKept(h, l, StepEmpty(h, u, l).1)
  {
  }

  lemma SnapInPop(h: Heap, u: nat, l: Local, c: Choice)
    ensures InPop(l.pc) ==> SnapKept(h, l, StepPop(h, u, l, c).1)
  {
  }

  /** The other steps neither take nor keep a snapshot. */
  lemma SnapElsewhere(h: Heap, u: nat, l: Local, c: Choice)
    ensures InRemove(l.pc) ==> !HasSnap(StepRemove(h, u, l, c).1)
    ensures InPush(l.pc) ==> !HasSnap(StepPush(h, u, l, c).1)
    ensures !HasSnap(l) ==> !HasSnap(StepCaller(h, u, l, c).1) || l.pc.Return?
  {
  }

  lemma SnapInCommitted(h: Heap, u: nat, l: Local, c: Choice)
    ensures InCommitted(l.pc) && l.push ==> !HasSnap(StepCommitted(h, u, l).1)
  {
  }

  lemma SnapStep(h: Heap, u: nat, l: Local, c: Choice)
    requires InCommitted(l.pc) ==> l.push
    ensures SnapKept(h, l, StepThread(h, u, l, c).1)
  {
    SnapInEmpty(h, u, l);
    SnapInPop(h, u, l, c);
    SnapElsewhere(h, u, l, c);
    SnapInCommitted(h, u, l, c);
    hide StepEmpty, StepPop, StepRemove, StepPush, StepCommitted;
  }

  lemma {:induction false} SnapInstant(run: seq<State>, k: nat, t: nat)
    requires IsRun(run) && k < |run| && t < |run[k].locals| && HasSnap(run[k].locals[t])
    ensures exists i: nat :: i < k && |run[i].locals| == |run[k].locals| && SnapAt(run[i], t, run[k].locals[t])
    decreases k
  {
    hide Core, StepThread, PopInv, EmptyInv, RemoveInv, PushInv, RemovingAt, Returning;
    RunInv(run, k);
    RunInv(run, k - 1);
    var u, c := StepAt(run, k);
    if u == t {
      SnapStep(run[k - 1].heap, t, run[k - 1].locals[t], c);
    }
    if HasSnap(run[k - 1].locals[t]) {
      SnapInstant(run, k - 1, t);
      var i: nat :| i < k - 1 && |run[i].locals| == |run[k].locals| && SnapAt(run[i], t, run[k - 1].locals[t]);
      assert SnapAt(run[i], t, run[k].locals[t]);
    } else {
      assert SnapAt(run[k - 1], t, run[k].locals[t]);
    }
  }

  /** The snapshot of a thread was taken in this state, in the course of the same operation. */
  ghost predicate SnapAt(s: State, t: nat, l: Local) {
    && t < |s.locals| && s.locals[t].op == l.op
    && s.heap.top == l.snapTop && SegAt(s.heap, l.topOld.seg).items == l.snap
  }

  /** Top is the only segment, and all its slots are empty. */
  ghost predicate Empty(h: Heap) {
    && 0 <= h.top.seg < |h.segs| && h.segs[h.top.seg].next == NIL
    && |h.segs[h.top.seg].items| == h.k
    && forall i {:trigger h.segs[h.top.seg].items[i]} :: 0 <= i < h.k ==> h.segs[h.top.seg].items[i].value == NULL
  }

  /** When the stack is empty, the item of every push that has returned has been popped. */
  lemma EmptyMeans(h: Heap, x: int)
    requires Core(h) && Empty(h) && x in h.done
    ensures Popped(h, x)
  {
    AtItem(h, x);
    AtLink(h, |h.live| - 1);
    assert SegOk(h, h.top.seg);
    assert |h.live| == 1;
  }

  lemma NextStays(run: seq<State>, i: nat, k: nat, s: nat)
    requires IsRun(run) && i <= k < |run| && s < |run[i].heap.segs|
    ensures s < |run[k].heap.segs| && run[k].heap.segs[s].next == run[i].heap.segs[s].next && run[k].heap.k == run[i].heap.k
    decreases k - i
  {
    hide Core, LocalInv, StepThread;
    if i < k {
      NextStays(run, i, k - 1, s);
      RunInv(run, k - 1);
      var u, c := StepAt(run, k);
      StepInv(run[k - 1], u, c);
      assert Rely(run[k - 1].heap, run[k].heap, u + 1);
      assert SegStep(run[k - 1].heap, run[k].heap, u + 1, s);
    }
  }

  /** A pop that returns false met, during the call, an instant at which top was the only segment and
      all k slots were empty at once; so every completed push had been popped. */
  lemma PopFalse(run: seq<State>, k: nat, t: nat)
    requires IsRun(run) && k < |run| && t < |run[k].locals|
    requires run[k].locals[t].pc.Return? && !run[k].locals[t].push && !run[k].locals[t].result.TrueValue?
    ensures run[k].locals[t].result.False?
    ensures exists i: nat :: i < k && |run[i].locals| == |run[k].locals| && run[i].locals[t].op == run[k].locals[t].op
                             && Empty(run[i].heap) && forall x :: x in run[i].heap.done ==> Popped(run[i].heap, x)
  {
    hide Core;
    RunInv(run, k);
    SnapInstant(run, k, t);
    var l := run[k].locals[t];
    var i: nat :| i < k && |run[i].locals| == |run[k].locals| && SnapAt(run[i], t, l);
    RunInv(run, i);
    TopExists(run[i].heap);
    NextStays(run, i, k, l.topOld.seg);
    assert Empty(run[i].heap);
    forall x | x in run[i].heap.done ensures Popped(run[i].heap, x) {
      EmptyMeans(run[i].heap, x);
    }
  }

  lemma TopExists(h: Heap)
    requires Core(h)
    ensures 0 <= h.top.seg < |h.segs|
  {
    assert h.live[|h.live| - 1] < |h.segs|;
  }

  // ------------------------------------------------------------------ top and the remove counters

  /** Every change of top makes it strictly greater, so no value of top recurs. */
  lemma TopIncreases(s: State, u: nat, c: Choice)
    requires Inv(s) && u < |s.locals| && Step(s, u, c).heap.top != s.heap.top
    ensures TopLe(s.heap.top, Step(s, u, c).heap.top)
    ensures !TopLe(Step(s, u, c).heap.top, s.heap.top)
  {
    hide Core, LocalInv, StepThread;
    StepInv(s, u, c);
    assert Rely(s.heap, Step(s, u, c).heap, u + 1);
  }

  /** The threads that are removing segment `s`. */
  function Removing(s: State, seg: nat): set<nat> {
    set t: nat | t < |s.locals| && Outstanding(s.locals[t]) && s.locals[t].topOld.seg == seg
  }

  lemma {:induction false} AsManyThreads(ts: set<nat>, rs: set<Option<nat>>)
    requires forall r: Option<nat> {:trigger r in rs} :: r in rs <==> r.Some? && r.value in ts
    ensures |rs| == |ts|
  {
    if ts == {} {
      assert rs == {};
    } else {
      var t :| t in ts;
      AsManyThreads(ts - {t}, rs - {Some(t)});
    }
  }

  lemma {:induction false} RemoversAreThreads(run: seq<State>, k: nat, t: nat)
    requires IsRun(run) && k < |run| && t >= |run[k].locals|
    ensures forall s: nat {:trigger run[k].heap.segs[s]} :: s < |run[k].heap.segs| ==> Some(t) !in run[k].heap.segs[s].removers
    decreases k
  {
    if k > 0 {
      RunInv(run, k - 1);
      RunInv(run, k);
      var u, c := StepAt(run, k);
      hide Core, Inv, Step, SegStep, IsRun;
      RemoversAreThreads(run, k - 1, t);
      forall s: nat | s < |run[k].heap.segs| ensures Some(t) !in run[k].heap.segs[s].removers {
        SegmentStep(run[k - 1], u, c, t, s);
        NotRemoving(run[k - 1].heap, run[k].heap, t, s);
      }
    }
  }

  lemma SegmentStep(s: State, u: nat, c: Choice, t: nat, seg: nat)
    requires Inv(s) && u < |s.locals| && t != u
    ensures SegStep(s.heap, Step(s, u, c).heap, t, seg) && |s.heap.segs| <= |Step(s, u, c).heap.segs|
  {
    hide Core, LocalInv, StepThread;
    StepInv(s, u, c);
    assert Rely(s.heap, Step(s, u, c).heap, t);
  }

  lemma NotRemoving(h: Heap, h': Heap, t: nat, seg: nat)
    requires SegStep(h, h', t, seg) && seg < |h'.segs| && |h.segs| <= |h'.segs|
    requires seg < |h.segs| ==> Some(t) !in h.segs[seg].removers
    ensures Some(t) !in h'.segs[seg].removers
  {
  }

  /** At every instant: the counter of a segment is the number of threads that are removing it, and one more
      once it has been removed; zero means that the segment can be reached from top. */
  lemma Counters(run: seq<State>, k: nat, s: nat)
    requires IsRun(run) && k < |run| && s < |run[k].heap.segs|
    ensures var h := run[k].heap;
            && h.segs[s].remove == |Removing(run[k], s)| + (if s in h.live then 0 else 1)
            && (h.segs[s].remove == 0 ==> exists i: nat :: i < |h.live| && h.live[i] == s && Reachable(h, s, Backwards(h.live, i)))
  {
    hide Items, History, PcInv;
    RunInv(run, k);
    var h := run[k].heap;
    assert SegOk(h, s);
    var threads := h.segs[s].removers - {None};
    forall r: Option<nat> ensures r in threads <==> r.Some? && r.value in Removing(run[k], s) {
      if r.Some? {
        if r.value < |run[k].locals| {
          assert LocalInv(h, r.value, run[k].locals[r.value]);
        } else {
          RemoversAreThreads(run, k, r.value);
        }
      }
    }
    AsManyThreads(Removing(run[k], s), threads);
    if s in h.live {
      assert threads == h.segs[s].removers;
      var i: nat :| i < |h.live| && h.live[i] == s;
      LiveIsReachable(h, i);
    }
  }

  lemma LiveElsewhere(h: Heap, u: nat, l: Local, c: Choice)
    ensures StepPop(h, u, l, c).0.live == h.live && |StepPop(h, u, l, c).0.segs| == |h.segs|
    ensures StepCommitted(h, u, l).0.live == h.live && |StepCommitted(h, u, l).0.segs| == |h.segs|
  {
  }

  lemma LiveInRemove(h: Heap, u: nat, l: Local, c: Choice, s: nat)
    requires s !in h.live
    ensures s !in StepRemove(h, u, l, c).0.live
  {
  }

  lemma LiveStep(h: Heap, u: nat, l: Local, c: Choice, s: nat)
    requires s < |h.segs| && s !in h.live
    ensures s !in StepThread(h, u, l, c).0.live
  {
    hide StepPop, StepRemove, StepCommitted;
    LiveElsewhere(h, u, l, c);
    LiveInRemove(h, u, l, c, s);
  }

  /** A segment that has been removed stays so, and keeps a counter of at least one, for ever. */
  lemma {:induction false} RemovedStays(run: seq<State>, i: nat, k: nat, s: nat)
    requires IsRun(run) && i <= k < |run| && s < |run[i].heap.segs| && s !in run[i].heap.live
    ensures s < |run[k].heap.segs| && s !in run[k].heap.live && run[k].heap.segs[s].remove >= 1
    decreases k - i
  {
    hide StepThread, Core, LocalInv, Removing;
    NextStays(run, i, k, s);
    Counters(run, k, s);
    if i < k {
      RemovedStays(run, i, k - 1, s);
      var u, c := StepAt(run, k);
      LiveStep(run[k - 1].heap, u, run[k - 1].locals[u], c, s);
    }
  }
}
