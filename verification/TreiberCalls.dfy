/** Each call of the Treiber stack has exactly the effect that its argument and its result say. */
module TreiberCalls {
  import opened Histories
  import opened Calls
  import opened TreiberModel
  import opened TreiberProof

  /** What a call has done so far, according to its program counter. */
  function Effect(t: nat, l: Local): seq<Event> {
    if l.push && l.pc.Return? then [Added(t, l.op, l.item)]
    else if !l.push && l.pc.PoReadData? then [Removed(t, l.op, l.value)]
    else if !l.push && l.pc.Return? && l.result.TrueValue? then [Removed(t, l.op, l.result.value)]
    else []
  }

  function ViewOf(h: Heap, t: nat, l: Local): View {
    View(h.log, l.pc.Idle?, Effect(t, l), l.push, if l.push then l.item else 0)
  }

  lemma PushSeen(h: Heap, t: nat, l: Local)
    requires Core(h) && PushInv(h, t, l)
    ensures var (h', l') := StepPush(h, t, l); Acting(ViewOf(h, t, l), ViewOf(h', t, l'), t)
  {
    hide Core, NoEvent, HoldsOnly;
  }

  lemma PopSeen(h: Heap, t: nat, l: Local)
    requires Core(h) && PopInv(h, t, l)
    ensures var (h', l') := StepPop(h, t, l); Acting(ViewOf(h, t, l), ViewOf(h', t, l'), t)
  {
    PopFacts(h, t, l);
    if l.pc.PoCas? && h.top == l.topOld { PopLog(h, l.next, t, l.op); }
    hide Core, PopInv, PopTop, Contents;
  }

  lemma PopFacts(h: Heap, t: nat, l: Local)
    requires PopInv(h, t, l)
    ensures !l.push && (l.pc.PoCas? ==> 0 <= l.topOld.node < |h.nodes|) && (l.pc.PoReadData? ==> Deref(h, l.topOld.node).data == l.value)
  {
    hide NoEvent, OneEvent, HoldsOnly;
  }

  lemma PopLog(h: Heap, next: int, t: nat, op: nat)
    requires Core(h) && 0 <= h.top.node < |h.nodes|
    ensures PopTop(h, next, t, op).log == h.log + [Removed(t, op, h.nodes[h.top.node].data)]
  {
    hide ReplayStack, LinkOk;
  }

  lemma EffectStep(h: Heap, t: nat, l: Local, c: Choice)
    requires Core(h) && LocalInv(h, t, l)
    ensures var (h', l') := StepThread(h, t, l, c); Acting(ViewOf(h, t, l), ViewOf(h', t, l'), t)
  {
    hide Core, PushInv, PopInv, Returning, StepPush, StepPop, Allocate;
    if InPush(l.pc) { PushSeen(h, t, l); } else if InPop(l.pc) { PopSeen(h, t, l); } else { StartLog(h, t, l, c); }
  }

  lemma StartLog(h: Heap, t: nat, l: Local, c: Choice)
    ensures Start(h, t, l, c).0.log == h.log
  {
  }

  function Views(run: seq<State>, t: nat): seq<View>
    requires forall k :: 0 <= k < |run| ==> t < |run[k].locals|
  {
    seq(|run|, k requires 0 <= k < |run| => ViewOf(run[k].heap, t, run[k].locals[t]))
  }

  lemma Watched(run: seq<State>, t: nat)
    requires IsRun(run) && t < |run[0].locals|
    ensures forall k :: 0 <= k < |run| ==> t < |run[k].locals|
    ensures IsWatched(Views(run, t), t)
  {
    forall k | 0 <= k < |run| ensures t < |run[k].locals| {
      RunInv(run, k);
    }
    hide Core, LocalInv, StepThread, ViewOf;
    forall k: nat ensures ThroughAt(Views(run, t), t, k) {
      if k + 1 < |run| {
        RunInv(run, k);
        var u, c := StepAt(run, k + 1);
        StepSeen(run[k], u, c, t);
      }
    }
  }

  lemma StepSeen(s: State, u: nat, c: Choice, t: nat)
    requires Inv(s) && u < |s.locals| && t < |s.locals|
    ensures var s' := Step(s, u, c); Through(ViewOf(s.heap, t, s.locals[t]), ViewOf(s'.heap, t, s'.locals[t]), t)
  {
    hide Core, LocalInv, StepThread, Through;
    var s' := Step(s, u, c);
    if u == t {
      EffectStep(s.heap, t, s.locals[t], c);
    } else {
      StepInv(s, u, c);
      assert Rely(s.heap, s'.heap, t);
    }
    EitherStep(ViewOf(s.heap, t, s.locals[t]), ViewOf(s'.heap, t, s'.locals[t]), t);
  }

  /** Thread `t` makes the call `c` at instant `i`, and is still in it at instant `k`. */
  ghost predicate Call(run: seq<State>, i: nat, k: nat, t: nat, c: Choice) {
    && i < k < |run| && t < |run[i].locals| && run[i].locals[t].pc.Idle? && run[i + 1] == Step(run[i], t, c)
    && forall j {:trigger run[j]} :: i < j <= k ==> t < |run[j].locals| && !run[j].locals[t].pc.Idle?
  }

  /** What a thread does in one call: a push adds its argument, once, and has done so when it returns; a pop
      removes at most one value, which is the one it returns, and none if it returns false. */
  lemma CallHasEffect(run: seq<State>, i: nat, k: nat, t: nat, c: Choice)
    requires IsRun(run) && Call(run, i, k, t, c)
    ensures var l := run[k].locals[t];
            var mine := Since(run[k].heap.log, |run[i].heap.log|, t);
            match c
            case StartPush(x, _) =>
              && (mine == [] || mine == [Added(t, l.op, x)])
              && (l.pc.Return? ==> l.result.True? && mine == [Added(t, l.op, x)])
            case StartPop =>
              && (mine == [] || exists v :: mine == [Removed(t, l.op, v)])
              && (l.pc.Return? ==>
                    match l.result
                    case TrueValue(v) => mine == [Removed(t, l.op, v)]
                    case False => mine == []
                    case _ => false)
  {
    RunInv(run, 0);
    RunInv(run, i);
    RunInv(run, k);
    if run[k].locals[t].pc.Return? { ReturnIs(run[k], t); }
    hide Core, LocalInv, Inv;
    Watched(run, t);
    InCall(Views(run, t), t, i, k);
  }

  lemma ReturnIs(s: State, t: nat)
    requires Inv(s) && t < |s.locals| && s.locals[t].pc.Return?
    ensures var l := s.locals[t]; if l.push then l.result.True? else l.result.TrueValue? || l.result.False?
  {
    hide Core;
    assert LocalInv(s.heap, t, s.locals[t]);
  }

  /** Outside its calls a thread does nothing. */
  lemma NothingBetweenCalls(run: seq<State>, i: nat, k: nat, t: nat)
    requires IsRun(run) && i <= k < |run| && t < |run[0].locals|
    requires forall j {:trigger run[j]} :: i <= j <= k ==> t < |run[j].locals| && run[j].locals[t].pc.Idle?
    ensures Since(run[k].heap.log, |run[i].heap.log|, t) == []
  {
    Watched(run, t);
    BetweenCalls(Views(run, t), t, i, k);
  }
}
