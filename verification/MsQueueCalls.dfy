/** Each call of the Michael-Scott queue has exactly the effect that its argument and its result say. */
module MsQueueCalls {
  import opened Histories
  import opened Calls
  import opened MsQueueModel
  import opened MsQueueProof

  /** What a call has done so far, according to its program counter. */
  function Effect(t: nat, l: Local): seq<Event> {
    if l.enqueue && (l.pc.EqCasTail? || l.pc.Return?) then [Added(t, l.op, l.item)]
    else if !l.enqueue && l.pc.Return? && l.result.TrueValue? then [Removed(t, l.op, l.result.value)]
    else []
  }

  function ViewOf(h: Heap, t: nat, l: Local): View {
    View(h.log, l.pc.Idle?, Effect(t, l), l.enqueue, if l.enqueue then l.item else 0)
  }

  lemma EnqueueSeen(h: Heap, t: nat, l: Local)
    requires Core(h) && EnqueueInv(h, t, l)
    ensures var (h', l') := StepEnqueue(h, t, l); Acting(ViewOf(h, t, l), ViewOf(h', t, l'), t)
  {
    hide ReplayQueue, NoEvent, OneEvent, Contents, NextOf;
    assert l.pc.EqCasNext? ==> NodeOk(h, l.tailOld.node);
  }

  lemma DequeueSeen(h: Heap, t: nat, l: Local)
    requires DequeueInv(h, t, l)
    ensures var (h', l') := StepDequeue(h, t, l); Acting(ViewOf(h, t, l), ViewOf(h', t, l'), t)
  {
    hide NoEvent, Contents, NextOf, WasHead, WasTail;
  }

  lemma EffectStep(h: Heap, t: nat, l: Local, c: Choice)
    requires Core(h) && LocalInv(h, t, l)
    ensures var (h', l') := StepThread(h, t, l, c); Acting(ViewOf(h, t, l), ViewOf(h', t, l'), t)
  {
    hide Core, EnqueueInv, DequeueInv, Returning, StepEnqueue, StepDequeue;
    if InEnqueue(l.pc) { EnqueueSeen(h, t, l); } else if InDequeue(l.pc) { DequeueSeen(h, t, l); }
  }

  function Views(run: seq<State>, t: nat): seq<View>
    requires forall k :: 0 <= k < |run| ==> t < |run[k].locals|
  {
    seq(|run|, k requires 0 <= k < |run| => ViewOf(run[k].heap, t, run[k].locals[t]))
  }

  lemma Watched(run: seq<State>, t: nat)
    requires IsRun(run) && t < |run[0].locals|
    ensures forall k :: 0 <= k < |run| ==> t < |run[k].locals|
    ensures IsWatched(Views(run, t), t)
  {
    forall k | 0 <= k < |run| ensures t < |run[k].locals| {
      RunInv(run, k);
    }
    hide Core, LocalInv, StepThread, ViewOf;
    forall k: nat ensures ThroughAt(Views(run, t), t, k) {
      if k + 1 < |run| {
        RunInv(run, k);
        var u, c := StepAt(run, k + 1);
        StepSeen(run[k], u, c, t);
      }
    }
  }

  lemma StepSeen(s: State, u: nat, c: Choice, t: nat)
    requires Inv(s) && u < |s.locals| && t < |s.locals|
    ensures var s' := Step(s, u, c); Through(ViewOf(s.heap, t, s.locals[t]), ViewOf(s'.heap, t, s'.locals[t]), t)
  {
    hide Core, LocalInv, StepThread, Through;
    var s' := Step(s, u, c);
    if u == t {
      EffectStep(s.heap, t, s.locals[t], c);
    } else {
      StepInv(s, u, c);
      assert Rely(s.heap, s'.heap, t);
    }
    EitherStep(ViewOf(s.heap, t, s.locals[t]), ViewOf(s'.heap, t, s'.locals[t]), t);
  }

  /** Thread `t` makes the call `c` at instant `i`, and is still in it at instant `k`. */
  ghost predicate Call(run: seq<State>, i: nat, k: nat, t: nat, c: Choice) {
    && i < k < |run| && t < |run[i].locals| && run[i].locals[t].pc.Idle? && run[i + 1] == Step(run[i], t, c)
    && forall j {:trigger run[j]} :: i < j <= k ==> t < |run[j].locals| && !run[j].locals[t].pc.Idle?
  }

  /** What a thread does in one call: an enqueue appends its argument, once, and has done so when it returns;
      a dequeue removes at most one value, which is the one it returns, and none if it returns false. */
  lemma CallHasEffect(run: seq<State>, i: nat, k: nat, t: nat, c: Choice)
    requires IsRun(run) && Call(run, i, k, t, c)
    ensures var l := run[k].locals[t];
            var mine := Since(run[k].heap.log, |run[i].heap.log|, t);
            match c
            case StartEnqueue(x) =>
              && (mine == [] || mine == [Added(t, l.op, x)])
              && (l.pc.Return? ==> l.result.True? && mine == [Added(t, l.op, x)])
            case StartDequeue =>
              if !l.pc.Return? then mine == []
              else match l.result
                   case TrueValue(v) => mine == [Removed(t, l.op, v)]
                   case False => mine == []
                   case _ => false
  {
    RunInv(run, 0);
    RunInv(run, i);
    RunInv(run, k);
    if run[k].locals[t].pc.Return? { ReturnIs(run[k], t); }
    hide Core, LocalInv, Inv;
    Watched(run, t);
    InCall(Views(run, t), t, i, k);
  }

  lemma ReturnIs(s: State, t: nat)
    requires Inv(s) && t < |s.locals| && s.locals[t].pc.Return?
    ensures var l := s.locals[t]; if l.enqueue then l.result.True? else l.result.TrueValue? || l.result.False?
  {
    hide Core;
    assert LocalInv(s.heap, t, s.locals[t]);
  }

  /** Outside its calls a thread does nothing. */
  lemma NothingBetweenCalls(run: seq<State>, i: nat, k: nat, t: nat)
    requires IsRun(run) && i <= k < |run| && t < |run[0].locals|
    requires forall j {:trigger run[j]} :: i <= j <= k ==> t < |run[j].locals| && run[j].locals[t].pc.Idle?
    ensures Since(run[k].heap.log, |run[i].heap.log|, t) == []
  {
    Watched(run, t);
    BetweenCalls(Views(run, t), t, i, k);
  }
}
