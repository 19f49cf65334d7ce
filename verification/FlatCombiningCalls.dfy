/** Each call of the flat-combining queue has exactly the effect that its argument and its result say. */
module FlatCombiningCalls {
  import opened Histories
  import opened Calls
  import opened FlatCombining
  import opened FlatCombiningProof

  /** The published operation of thread `t`, if it has been applied. */
  function Application(h: Heap, t: nat): seq<Event> {
    if t < |h.phases| && h.phases[t].Applied? then [h.phases[t].event] else []
  }

  /** The event of a dequeue that has fetched its result. */
  function Fetched(t: nat, op: nat, data: int): Event {
    if data == NULL then Missed(t, op) else Removed(t, op, data)
  }

  /** What a call has done so far. */
  function Effect(h: Heap, t: nat, l: Local): seq<Event> {
    match l.pc
    case Idle | WriteData | WriteOpcode => []
    case ResetOpcode => [Fetched(t, l.op, l.data)]
    case Return =>
      if l.enqueue then Application(h, t)
      else [if l.result.TrueValue? then Removed(t, l.op, l.result.value) else Missed(t, l.op)]
    case _ => Application(h, t)
  }

  function ViewOf(h: Heap, t: nat, l: Local): View {
    View(h.log, l.pc.Idle?, Effect(h, t, l), l.enqueue, if l.enqueue then l.item else 0)
  }

  /** The operations applied in a step of the lock holder are in the log, and nothing else is new. */
  lemma ScanSeen(h: Heap, u: nat, l: Local, t: nat)
    requires Core(h) && ScanInv(h, u, l)
    ensures var h' := StepScan(h, u, l).0;
            h.log <= h'.log && Application(h', t) == Application(h, t) + Since(h'.log, |h.log|, t)
    ensures var l' := StepScan(h, u, l).1; (InScan(l'.pc) || l'.pc.Unlock?) && l'.enqueue == l.enqueue && l'.item == l.item
  {
    hide Since, ReplayQueue, SlotOk;
    var h' := StepScan(h, u, l).0;
    if l.pc.ApplyEnqueue? || l.pc.ApplyDequeue? {
      SinceAppended(h.log, h'.log[|h.log|], t);
      assert h'.log == h.log + [h'.log[|h.log|]];
    } else {
      assert h'.log == h.log;
      SinceNow(h.log, t);
    }
  }

  lemma OuterLog(h: Heap, u: nat, l: Local, c: Choice, t: nat)
    requires Core(h) && OuterInv(h, u, l)
    ensures var h' := StepOuter(h, u, l, c).0; h'.log == h.log && (t != u ==> Application(h', t) == Application(h, t))
  {
    hide ReplayQueue, NoEvent, OneEvent, SlotOk;
  }

  /** A dequeue fetches the event of its application. */
  lemma FetchSeen(h: Heap, u: nat, l: Local, c: Choice)
    requires Core(h) && OuterInv(h, u, l) && l.pc.ResetData?
    ensures Application(h, u) == [Fetched(u, l.op, l.data)]
  {
    hide ReplayQueue, NoEvent, OneEvent;
    assert SlotOk(h, u);
  }

  /** Where the steps of a thread lead, as far as its effect is concerned. */
  lemma OuterApplication(h: Heap, u: nat, l: Local, c: Choice)
    requires Core(h) && OuterInv(h, u, l) && !l.pc.Idle? && !l.pc.WriteData? && !l.pc.ResetOpcode? && !l.pc.Return?
    ensures var h' := StepOuter(h, u, l, c).0; Application(h', u) == if l.pc.WriteOpcode? || l.pc.ResetData? then [] else Application(h, u)
  {
    hide ReplayQueue, NoEvent, OneEvent, SlotOk;
  }

  lemma OuterSeen(h: Heap, u: nat, l: Local, c: Choice)
    requires Core(h) && OuterInv(h, u, l)
    ensures var (h', l') := StepOuter(h, u, l, c); Acting(ViewOf(h, u, l), ViewOf(h', u, l'), u)
  {
    OuterLog(h, u, l, c, u);
    if l.pc.ResetData? { FetchSeen(h, u, l, c); }
    if !l.pc.Idle? && !l.pc.WriteData? && !l.pc.ResetOpcode? && !l.pc.Return? { OuterApplication(h, u, l, c); }
    hide Core, OuterInv, Application, Publish, SetPhase, SetData, SetOpcode;
  }

  /** As long as thread `t` has nothing published, nothing is applied for it. */
  lemma QuietSeen(h: Heap, h': Heap, t: nat, l: Local)
    requires Core(h) && LocalInv(h, t, l) && Rely(h, h', t)
    requires Application(h', t) == Application(h, t) + Since(h'.log, |h.log|, t)
    ensures Through(ViewOf(h, t, l), ViewOf(h', t, l), t)
  {
    hide Since, ReplayQueue, NoEvent, OneEvent, SlotOk;
  }

  function Views(run: seq<State>, t: nat): seq<View>
    requires forall k :: 0 <= k < |run| ==> t < |run[k].locals|
  {
    seq(|run|, k requires 0 <= k < |run| => ViewOf(run[k].heap, t, run[k].locals[t]))
  }

  lemma Watched(run: seq<State>, t: nat)
    requires IsRun(run) && t < |run[0].locals|
    ensures forall k :: 0 <= k < |run| ==> t < |run[k].locals|
    ensures IsWatched(Views(run, t), t)
  {
    forall k | 0 <= k < |run| ensures t < |run[k].locals| {
      RunInv(run, k);
    }
    hide Core, LocalInv, StepThread, ViewOf;
    forall k: nat ensures ThroughAt(Views(run, t), t, k) {
      if k + 1 < |run| {
        RunInv(run, k);
        var u, c := StepAt(run, k + 1);
        StepSeen(run[k], u, c, t);
      }
    }
  }

  lemma StepSeen(s: State, u: nat, c: Choice, t: nat)
    requires Inv(s) && u < |s.locals| && t < |s.locals|
    ensures var s' := Step(s, u, c); Through(ViewOf(s.heap, t, s.locals[t]), ViewOf(s'.heap, t, s'.locals[t]), t)
  {
    hide Core, ScanInv, OuterInv, Through, Acting, StepScan, StepOuter, Application, Since, ViewOf, Rely;
    var s', h, l := Step(s, u, c), s.heap, s.locals[u];
    assert LocalInv(h, u, l);
    ThreadKeeps(h, u, l, c);
    if InScan(l.pc) {
      ScanSeen(h, u, l, t);
      if u == t { ScannerSeen(h, u, l); }
    } else {
      OuterLog(h, u, l, c, t);
      OuterSeen(h, u, l, c);
      SinceNow(h.log, t);
      if u == t { EitherStep(ViewOf(h, t, l), ViewOf(s'.heap, t, s'.locals[t]), t); }
    }
    if u != t {
      assert Rely(h, s'.heap, t);
      QuietSeen(h, s'.heap, t, s.locals[t]);
    }
  }

  lemma ScannerSeen(h: Heap, u: nat, l: Local)
    requires InScan(l.pc) && h.log <= StepScan(h, u, l).0.log
    requires var (h', l') := StepScan(h, u, l);
             && Application(h', u) == Application(h, u) + Since(h'.log, |h.log|, u)
             && (InScan(l'.pc) || l'.pc.Unlock?) && l'.enqueue == l.enqueue && l'.item == l.item
    ensures var (h', l') := StepScan(h, u, l); Through(ViewOf(h, u, l), ViewOf(h', u, l'), u)
  {
    hide StepScan, Since, Application;
  }

  /** Thread `t` makes the call `c` at instant `i`, and is still in it at instant `k`. */
  ghost predicate Call(run: seq<State>, i: nat, k: nat, t: nat, c: Choice) {
    && i < k < |run| && t < |run[i].locals| && run[i].locals[t].pc.Idle? && run[i + 1] == Step(run[i], t, c)
    && forall j {:trigger run[j]} :: i < j <= k ==> t < |run[j].locals| && !run[j].locals[t].pc.Idle?
  }

  lemma EffectIs(h: Heap, t: nat, l: Local)
    requires Core(h) && LocalInv(h, t, l) && !l.pc.Idle?
    ensures var e := Effect(h, t, l);
            if l.enqueue then
              && (e == [] || e == [Added(t, l.op, l.item)])
              && (l.pc.Return? ==> l.result.True? && e == [Added(t, l.op, l.item)])
            else
              && (e == [] || e == [Missed(t, l.op)] || exists v :: e == [Removed(t, l.op, v)])
              && (l.pc.Return? ==>
                    match l.result
                    case TrueValue(v) => e == [Removed(t, l.op, v)]
                    case False => e == [Missed(t, l.op)]
                    case _ => false)
  {
    hide ReplayQueue, NoEvent, OneEvent;
    assert t < |h.phases| ==> SlotOk(h, t);
    if Effect(h, t, l) != [] && Effect(h, t, l)[0].Removed? {
      assert Effect(h, t, l) == [Removed(t, l.op, Effect(h, t, l)[0].value)];
    }
  }

  /** What a thread does in one call, or a lock holder for it: an enqueue appends its argument, once, and has done
      so when it returns; a dequeue removes at most one value, which is the one it returns, or finds the queue
      empty, once, and returns false. */
  lemma CallHasEffect(run: seq<State>, i: nat, k: nat, t: nat, c: Choice)
    requires IsRun(run) && Call(run, i, k, t, c)
    ensures var l := run[k].locals[t];
            var mine := Since(run[k].heap.log, |run[i].heap.log|, t);
            match c
            case StartEnqueue(x) =>
              && (mine == [] || mine == [Added(t, l.op, x)])
              && (l.pc.Return? ==> l.result.True? && mine == [Added(t, l.op, x)])
            case StartDequeue =>
              && (mine == [] || mine == [Missed(t, l.op)] || exists v :: mine == [Removed(t, l.op, v)])
              && (l.pc.Return? ==>
                    match l.result
                    case TrueValue(v) => mine == [Removed(t, l.op, v)]
                    case False => mine == [Missed(t, l.op)]
                    case _ => false)
  {
    RunInv(run, 0);
    RunInv(run, i);
    RunInv(run, k);
    EffectIs(run[k].heap, t, run[k].locals[t]);
    Watched(run, t);
    hide Core, LocalInv, Effect;
    InCall(Views(run, t), t, i, k);
  }

  /** Outside its calls a thread does nothing. */
  lemma NothingBetweenCalls(run: seq<State>, i: nat, k: nat, t: nat)
    requires IsRun(run) && i <= k < |run| && t < |run[0].locals|
    requires forall j {:trigger run[j]} :: i <= j <= k ==> t < |run[j].locals| && run[j].locals[t].pc.Idle?
    ensures Since(run[k].heap.log, |run[i].heap.log|, t) == []
  {
    Watched(run, t);
    BetweenCalls(Views(run, t), t, i, k);
  }
}
