/** Each call of the wait-free queue has exactly the effect that its argument and its result say, whoever carries it
    out; in particular it publishes one operation. */
module WaitFreeCalls {
  import opened Basics
  import opened Histories
  import opened Calls
  import opened WaitFreeModel
  import opened WaitFreeInvariant
  import opened WaitFreeTheorems
  import opened WaitFreeHistory

  /** The event of the operation thread `t` has published last, once it has one. */
  function Done(h: Heap, t: nat): seq<Event> {
    if t < |h.slots| && t < |h.ops| && t < |h.lin| && h.lin[t].Some? then [EventOf(h, t)] else []
  }

  /** The call has not published its operation yet. */
  predicate Before(l: Local) {
    l.pc.Scan? || l.pc.ReadAba? || l.pc.Publish?
  }

  function Effect(h: Heap, t: nat, l: Local): seq<Event> {
    if Before(l) then [] else Done(h, t)
  }

  function ViewOf(h: Heap, t: nat, l: Local): View {
    View(h.log, l.pc.Idle?, Effect(h, t, l), l.kind.Enq?, if l.kind.Enq? then l.item else 0)
  }

  // ------------------------------------------------------------------ the effect of one step

  /** As long as thread `t` publishes nothing, its event is the one that is new in the log. */
  lemma DoneStep(h: Heap, h': Heap, t: nat)
    requires HeapInv(h) && HeapInv(h') && LogStep(h, h') && t < |h.slots| == |h'.slots| && SameNumber(h, h', t)
    ensures h.log <= h'.log && Done(h', t) == Done(h, t) + Since(h'.log, |h.log|, t)
  {
    SameEvent(h, h', t);
    LogStepMeans(h, h');
    hide HeapInv, Done, Since, LogStep;
    if h'.log == h.log {
      SinceNow(h.log, t);
    } else {
      SinceAppended(h.log, h'.log[|h.log|], t);
    }
  }

  lemma LogStepMeans(h: Heap, h': Heap)
    requires LogStep(h, h')
    ensures h'.log == h.log || (|h'.log| == |h.log| + 1 && h'.log == h.log + [h'.log[|h.log|]])
  {
  }

  ghost predicate SameNumber(h: Heap, h': Heap, t: nat) {
    t < |h.ops| && t < |h'.ops| && h'.ops[t] == h.ops[t]
  }

  /** The events of operation `op` of thread `t`: none, or one. */
  ghost predicate EventsOf(log: seq<Event>, t: nat, op: nat, es: seq<Event>) {
    && (es != [] ==> |es| == 1 && es[0] in log && es[0].tid == t && es[0].op == op)
    && forall j {:trigger log[j]} :: 0 <= j < |log| && log[j].tid == t && log[j].op == op ==> es == [log[j]]
  }

  lemma DoneAreEvents(h: Heap, t: nat)
    requires HeapInv(h) && t < |h.slots|
    ensures t < |h.ops| && EventsOf(h.log, t, h.ops[t], Done(h, t))
  {
    hide Shape, Claims, ClaimOwner, Dangling, SlotOk, ReplayQueue, Contents;
    forall j | 0 <= j < |h.log| && h.log[j].tid == t && h.log[j].op == h.ops[t] ensures Done(h, t) == [h.log[j]] {
      var i :| 0 <= i < |h.log| && h.log[i] == EventOf(h, t);
    }
  }

  lemma SameEvents(log: seq<Event>, t: nat, op: nat, es: seq<Event>, es': seq<Event>)
    requires EventsOf(log, t, op, es) && EventsOf(log, t, op, es')
    ensures es' == es
  {
  }

  lemma MoreEvents(log: seq<Event>, e: Event, t: nat, op: nat, es: seq<Event>, es': seq<Event>)
    requires EventsOf(log, t, op, es) && EventsOf(log + [e], t, op, es') && (e.tid == t ==> e.op == op)
    ensures if e.tid == t then es' == [e] else es' == es
  {
    assert (log + [e])[|log|] == e;
    if e.tid != t && es != [] {
      var j :| 0 <= j < |log| && log[j] == es[0];
      assert (log + [e])[j] == log[j];
    }
  }

  lemma SameEvent(h: Heap, h': Heap, t: nat)
    requires HeapInv(h) && HeapInv(h') && LogStep(h, h') && t < |h.slots| == |h'.slots| && SameNumber(h, h', t)
    ensures if h'.log != h.log && h'.log[|h.log|].tid == t then Done(h, t) == [] && Done(h', t) == [h'.log[|h.log|]]
            else Done(h', t) == Done(h, t)
  {
    DoneAreEvents(h, t);
    DoneAreEvents(h', t);
    hide HeapInv, EventsOf;
    if h'.log == h.log {
      SameEvents(h.log, t, h.ops[t], Done(h, t), Done(h', t));
    } else {
      var e := h'.log[|h.log|];
      assert h'.log == h.log + [e];
      MoreEvents(h.log, e, t, h.ops[t], Done(h, t), Done(h', t));
    }
  }

  /** Nothing has been done yet for an operation just published. */
  lemma NotDoneYet(h: Heap, h': Heap, t: nat)
    requires HeapInv(h) && HeapInv(h') && h'.log == h.log && t < |h.slots| == |h'.slots| && h'.ops[t] > h.ops[t]
    ensures Done(h', t) == []
  {
    hide Shape, Claims, ClaimOwner, Dangling, SlotOk, ReplayQueue, Contents;
  }

  lemma QuietNow(h: Heap, t: nat, l: Local)
    requires LocalInv(h, t, l) && (l.pc.Idle? || Before(l))
    ensures Quiet(h, t)
  {
  }

  /** Nothing is done for a thread whose descriptor is not pending. */
  lemma QuietStep(h: Heap, h': Heap, t: nat)
    requires LogStep(h, h') && Quiet(h, t)
    ensures h.log <= h'.log && Since(h'.log, |h.log|, t) == []
  {
    if h'.log == h.log {
      SinceNow(h.log, t);
    } else {
      SinceAppended(h.log, h'.log[|h.log|], t);
      assert h'.log == h.log + [h'.log[|h.log|]];
    }
  }

  lemma ArgumentInHelpEnqueue(h: Heap, u: nat, l: Local)
    ensures InHelpEnqueue(l.pc) ==> StepHelpEnqueue(h, u, l).1.kind == l.kind && StepHelpEnqueue(h, u, l).1.item == l.item
    ensures InFinishEnqueue(l.pc) ==> StepFinishEnqueue(h, u, l).1.kind == l.kind && StepFinishEnqueue(h, u, l).1.item == l.item
    ensures InFinishEnqueue(l.pc) ==> !Over(StepFinishEnqueue(h, u, l).1) || StepFinishEnqueue(h, u, l).1.pc.Return?
  {
    hide Contents, LinkNode;
  }

  lemma ArgumentInHelpDequeue(h: Heap, u: nat, l: Local)
    ensures InHelpDequeue(l.pc) ==> StepHelpDequeue(h, u, l).1.kind == l.kind && StepHelpDequeue(h, u, l).1.item == l.item
    ensures InFinishDequeue(l.pc) ==> StepFinishDequeue(h, u, l).1.kind == l.kind && StepFinishDequeue(h, u, l).1.item == l.item
    ensures InFinishDequeue(l.pc) ==> !Over(StepFinishDequeue(h, u, l).1) || StepFinishDequeue(h, u, l).1.pc.Return?
  {
    hide Contents, ClaimNode;
  }

  /** In a call the argument stays the same, and nothing leads back to before the publication. */
  lemma ArgumentStays(h: Heap, u: nat, l: Local, c: Choice)
    ensures var l' := StepThread(h, u, l, c).1;
            && (!l.pc.Idle? ==> l'.kind == l.kind && l'.item == l.item)
            && (Before(l') ==> l.pc.Idle? || Before(l))
            && (l.pc.Idle? ==> l'.pc.Idle? || Before(l'))
            && (Before(l) ==> (Before(l') <==> !l.pc.Publish?))
            && (l'.pc.Idle? ==> l.pc.Idle? || l.pc.Return?)
  {
    hide Contents, StepHelpEnqueue, StepFinishEnqueue, StepHelpDequeue, StepFinishDequeue, PublishOp;
    ArgumentInHelpEnqueue(h, u, l);
    ArgumentInHelpDequeue(h, u, l);
    OpsInHelpEnqueue(h, u, l);
    OpsInHelpDequeue(h, u, l);
  }

  lemma OwnSeen(s: State, t: nat, c: Choice)
    requires Inv(s) && t < |s.locals|
    ensures var s' := Step(s, t, c); Through(ViewOf(s.heap, t, s.locals[t]), ViewOf(s'.heap, t, s'.locals[t]), t)
  {
    hide HeapInv, LocalInv, StepThread, PhaseInv, Since, Done, LogStep;
    var s', h, l := Step(s, t, c), s.heap, s.locals[t];
    StepInv(s, t, c);
    StepLog(s, t, c);
    SizesNow(s);
    OpsStep(s, t, c);
    ArgumentStays(h, t, l, c);
    if l.pc.Idle? || l.pc.Return? || Before(l) {
      OverLog(h, t, l, c);
      SinceNow(h.log, t);
      if l.pc.Publish? { NotDoneYet(h, s'.heap, t); }
    } else {
      DoneStep(h, s'.heap, t);
    }
  }

  lemma SizesNow(s: State)
    requires Inv(s)
    ensures |s.locals| == |s.heap.slots| == |s.heap.ops| && Sizes(s.heap)
  {
  }

  lemma OverLog(h: Heap, u: nat, l: Local, c: Choice)
    requires l.pc.Idle? || l.pc.Return? || Before(l)
    ensures StepThread(h, u, l, c).0.log == h.log
  {
    hide PublishOp;
    OuterHistory(h, u, l, c);
  }

  lemma OtherSeen(s: State, u: nat, c: Choice, t: nat)
    requires Inv(s) && u < |s.locals| && t < |s.locals| && u != t
    ensures var s' := Step(s, u, c); Through(ViewOf(s.heap, t, s.locals[t]), ViewOf(s'.heap, t, s'.locals[t]), t)
  {
    hide HeapInv, LocalInv, StepThread, PhaseInv, Since, Done, LogStep;
    var s', h, l := Step(s, u, c), s.heap, s.locals[t];
    StepInv(s, u, c);
    StepLog(s, u, c);
    SizesNow(s);
    SizesNow(s');
    OpsStep(s, u, c);
    if l.pc.Idle? || Before(l) {
      QuietNow(h, t, l);
      QuietStep(h, s'.heap, t);
    } else {
      DoneStep(h, s'.heap, t);
    }
  }

  lemma StepSeen(s: State, u: nat, c: Choice, t: nat)
    requires Inv(s) && u < |s.locals| && t < |s.locals|
    ensures var s' := Step(s, u, c); Through(ViewOf(s.heap, t, s.locals[t]), ViewOf(s'.heap, t, s'.locals[t]), t)
  {
    if u == t { OwnSeen(s, t, c); } else { OtherSeen(s, u, c, t); }
  }

  // ------------------------------------------------------------------ every run

  function Views(run: seq<State>, t: nat): seq<View>
    requires forall k :: 0 <= k < |run| ==> t < |run[k].locals|
  {
    seq(|run|, k requires 0 <= k < |run| => ViewOf(run[k].heap, t, run[k].locals[t]))
  }

  lemma Watched(run: seq<State>, t: nat)
    requires IsRun(run) && t < |run[0].locals|
    ensures forall k :: 0 <= k < |run| ==> t < |run[k].locals|
    ensures IsWatched(Views(run, t), t)
  {
    forall k | 0 <= k < |run| ensures t < |run[k].locals| {
      RunSizes(run, k);
    }
    hide HeapInv, LocalInv, StepThread, ViewOf;
    forall k: nat ensures ThroughAt(Views(run, t), t, k) {
      if k + 1 < |run| {
        RunInv(run, k);
        assert Next(run[k], run[k + 1]);
        var u: nat, c :| u < |run[k].locals| && run[k + 1] == Step(run[k], u, c);
        StepSeen(run[k], u, c, t);
      }
    }
  }

  lemma PublishedNow(h: Heap, t: nat, l: Local)
    requires LocalInv(h, t, l) && !l.pc.Idle? && !Before(l)
    ensures Published(h, t, l)
  {
  }

  /** What a call has done so far. */
  lemma EffectShape(h: Heap, t: nat, l: Local)
    requires HeapInv(h) && LocalInv(h, t, l) && !l.pc.Idle? && t < |h.slots| && t < |h.ops|
    ensures var e := Effect(h, t, l);
            if l.kind.Enq? then e == [] || e == [Added(t, h.ops[t], l.item)]
            else e == [] || exists v :: e == [Removed(t, h.ops[t], v)]
  {
    if !Before(l) {
      PublishedNow(h, t, l);
      DoneIs(h, t, l);
    }
    hide HeapInv, LocalInv, Published;
    if Effect(h, t, l) != [] && !l.kind.Enq? {
      assert Effect(h, t, l) == [Removed(t, h.ops[t], h.lin[t].value)];
    }
  }

  lemma EffectAtReturn(h: Heap, t: nat, l: Local)
    requires HeapInv(h) && LocalInv(h, t, l) && l.pc.Return? && t < |h.slots| && t < |h.ops|
    ensures var e := Effect(h, t, l);
            if l.kind.Enq? then l.result.True? && e == [Added(t, h.ops[t], l.item)]
            else match l.result
                 case TrueValue(v) => e == [Removed(t, h.ops[t], v)]
                 case False => e == []
                 case _ => false
  {
    ReturnFacts(h, t, l);
    ReturnResult(h, t, l);
    SizesHold(h);
    hide HeapInv, LocalInv, Returning;
  }

  lemma SizesHold(h: Heap)
    requires HeapInv(h)
    ensures |h.slots| == |h.ops| == |h.lin|
  {
  }

  lemma ReturnResult(h: Heap, t: nat, l: Local)
    requires Returning(h, t, l)
    ensures l.kind.Enq? ==> l.result.True?
  {
  }

  /** The event of a published operation is of its kind, and has its item. */
  lemma DoneIs(h: Heap, t: nat, l: Local)
    requires HeapInv(h) && Published(h, t, l)
    ensures h.slots[t].desc.kind == l.kind
    ensures t < |h.lin| && h.lin[t].Some? && l.kind.Enq? ==> h.lin[t].value == l.item
  {
    hide Claims, ClaimOwner, Dangling, LogOk, NextOk, NodeOk, DeqSlotOk;
    AtSlot(h, t);
  }

  /** Thread `t` makes the call `c` at instant `i`, and is still in it at instant `k`. */
  ghost predicate Call(run: seq<State>, i: nat, k: nat, t: nat, c: Choice) {
    && i < k < |run| && t < |run[i].locals| && run[i].locals[t].pc.Idle? && run[i + 1] == Step(run[i], t, c)
    && forall j {:trigger run[j]} :: i < j <= k ==> t < |run[j].locals| && !run[j].locals[t].pc.Idle?
  }

  /** What a thread, or whoever helps it, does in one call: the call publishes one operation; an enqueue appends its
      argument, once, and has done so when it returns; a dequeue removes at most one value, which is the one it
      returns, and none if it returns false. */
  lemma CallHasEffect(run: seq<State>, i: nat, k: nat, t: nat, c: Choice)
    requires IsRun(run) && Call(run, i, k, t, c)
    ensures var h, l := run[k].heap, run[k].locals[t];
            var mine := Since(h.log, |run[i].heap.log|, t);
            && t < |h.ops| && t < |run[i].heap.ops| && h.ops[t] == run[i].heap.ops[t] + (if Before(l) then 0 else 1)
            && match c
               case StartEnqueue(x) =>
                 && (mine == [] || mine == [Added(t, h.ops[t], x)])
                 && (l.pc.Return? ==> l.result.True? && mine == [Added(t, h.ops[t], x)])
               case StartDequeue =>
                 && (mine == [] || exists v :: mine == [Removed(t, h.ops[t], v)])
                 && (l.pc.Return? ==>
                       match l.result
                       case TrueValue(v) => mine == [Removed(t, h.ops[t], v)]
                       case False => mine == []
                       case _ => false)
  {
    hide HeapInv, Effect;
    RunInv(run, 0);
    RunInv(run, i);
    RunInv(run, k);
    SizesNow(run[i]);
    SizesNow(run[k]);
    OnePublication(run, i, k, t, c);
    EffectShape(run[k].heap, t, run[k].locals[t]);
    if run[k].locals[t].pc.Return? { EffectAtReturn(run[k].heap, t, run[k].locals[t]); }
    Watched(run, t);
    InCall(Views(run, t), t, i, k);
  }

  /** The operations a thread has published, but for that of its present call. */
  ghost predicate PublishedBefore(s: State, t: nat, n: nat) {
    t < |s.locals| && t < |s.heap.ops| && s.heap.ops[t] == n + if Before(s.locals[t]) then 0 else 1
  }

  lemma PublicationStep(s: State, u: nat, c: Choice, t: nat, n: nat)
    requires Inv(s) && u < |s.locals| && t < |s.locals| && !Step(s, u, c).locals[t].pc.Idle?
    requires if s.locals[t].pc.Idle? then t < |s.heap.ops| && s.heap.ops[t] == n && u == t else PublishedBefore(s, t, n)
    ensures PublishedBefore(Step(s, u, c), t, n)
  {
    hide HeapInv, LocalInv, StepThread, PhaseInv;
    SizesNow(s);
    OpsStep(s, u, c);
    if u == t { ArgumentStays(s.heap, t, s.locals[t], c); }
  }

  /** A call publishes one operation. */
  lemma {:induction false} OnePublication(run: seq<State>, i: nat, k: nat, t: nat, c: Choice)
    requires IsRun(run) && Call(run, i, k, t, c)
    ensures t < |run[i].heap.ops| && PublishedBefore(run[k], t, run[i].heap.ops[t])
    decreases k
  {
    hide Inv, StepThread, PublishedBefore;
    RunInv(run, k - 1);
    RunInv(run, i);
    SizesNow(run[i]);
    if k == i + 1 {
      PublicationStep(run[i], t, c, t, run[i].heap.ops[t]);
    } else {
      OnePublication(run, i, k - 1, t, c);
      assert Next(run[k - 1], run[k - 1 + 1]);
      var u: nat, d :| u < |run[k - 1].locals| && run[k] == Step(run[k - 1], u, d);
      PublicationStep(run[k - 1], u, d, t, run[i].heap.ops[t]);
    }
  }

  /** Outside its calls a thread does nothing. */
  lemma NothingBetweenCalls(run: seq<State>, i: nat, k: nat, t: nat)
    requires IsRun(run) && i <= k < |run| && t < |run[0].locals|
    requires forall j {:trigger run[j]} :: i <= j <= k ==> t < |run[j].locals| && run[j].locals[t].pc.Idle?
    ensures Since(run[k].heap.log, |run[i].heap.log|, t) == []
  {
    Watched(run, t);
    BetweenCalls(Views(run, t), t, i, k);
  }
}
