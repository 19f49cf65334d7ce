/** Each call of the distributed queue has exactly the effect that its argument and its result say, on one partial
    structure: a put adds its item, and a get returns what it has removed. */
module DistributedQueueCalls {
  import opened Basics
  import opened Histories
  import opened Calls
  import opened DistributedQueueModel
  import opened DistributedQueueProof
  import Ms = MsQueueModel
  import MsProof = MsQueueProof
  import MsCalls = MsQueueCalls
  import Treiber = TreiberModel
  import TrProof = TreiberProof
  import TrCalls = TreiberCalls

  // ------------------------------------------------------------------ one partial structure

  function LogOf(p: Part): seq<Event> {
    match p
    case MsPart(s) => s.heap.log
    case TreiberPart(s) => s.heap.log
  }

  /** What the present operation of thread `t` on this structure has done so far. */
  function Inner(p: Part, t: nat): View
    requires t < Threads(p)
  {
    match p
    case MsPart(s) => MsCalls.ViewOf(s.heap, t, s.locals[t])
    case TreiberPart(s) => TrCalls.ViewOf(s.heap, t, s.locals[t])
  }

  /** The argument of the last put of thread `t` on this structure, and its number there. */
  function LastItem(p: Part, t: nat): int
    requires t < Threads(p)
  {
    match p
    case MsPart(s) => s.locals[t].item
    case TreiberPart(s) => s.locals[t].item
  }

  function LastOp(p: Part, t: nat): nat
    requires t < Threads(p)
  {
    match p
    case MsPart(s) => s.locals[t].op
    case TreiberPart(s) => s.locals[t].op
  }

  /** A step of thread `t` in its operation. */
  ghost predicate InnerStep(p: Part, p': Part, t: nat, put: bool, item: int)
    requires t < Threads(p) && t < Threads(p')
  {
    && Acting(Inner(p, t), Inner(p', t), t)
    && (Returns(p, t) ==> LastItem(p', t) == LastItem(p, t) && LastOp(p', t) == LastOp(p, t))
    && (Inactive(p, t) && !Inactive(p', t) ==> put ==> LastItem(p', t) == item)
    && (!Inactive(p, t) && put ==> LastItem(p', t) == LastItem(p, t))
    && (!Inactive(p, t) ==> Inactive(p', t) == Returns(p, t))
  }

  lemma MsActs(s: Ms.State, t: nat, c: Ms.Choice)
    requires MsProof.Inv(s) && t < |s.locals|
    ensures var s' := Ms.Step(s, t, c);
            var l, l' := s.locals[t], s'.locals[t];
            && Acting(MsCalls.ViewOf(s.heap, t, l), MsCalls.ViewOf(s'.heap, t, l'), t)
            && (if l.pc.Idle? then l' == Ms.Start(l, c) else l'.item == l.item && l'.op == l.op)
            && (!l.pc.Idle? ==> (l'.pc.Idle? <==> l.pc.Return?))
  {
    hide MsProof.Core, MsProof.LocalInv, Ms.Contents;
    MsCalls.EffectStep(s.heap, t, s.locals[t], c);
  }

  lemma TreiberActs(s: Treiber.State, t: nat, c: Treiber.Choice)
    requires TrProof.Inv(s) && t < |s.locals|
    ensures var s' := Treiber.Step(s, t, c);
            var l, l' := s.locals[t], s'.locals[t];
            && Acting(TrCalls.ViewOf(s.heap, t, l), TrCalls.ViewOf(s'.heap, t, l'), t)
            && (if l.pc.Idle? then l' == Treiber.Start(s.heap, t, l, c).1 else l'.item == l.item && l'.op == l.op)
            && (!l.pc.Idle? ==> (l'.pc.Idle? <==> l.pc.Return?))
  {
    hide TrProof.Core, TrProof.LocalInv, Treiber.Contents;
    TrCalls.EffectStep(s.heap, t, s.locals[t], c);
  }

  lemma PartActs(p: Part, t: nat, put: bool, item: int, node: nat)
    requires PartInv(p) && t < Threads(p) && InOperation(p, t, put)
    ensures var p' := StepPart(p, t, put, item, node); Threads(p') == Threads(p) && InnerStep(p, p', t, put, item)
  {
    match p
    case MsPart(s) =>
      MsActs(s, t, if put then Ms.StartEnqueue(item) else Ms.StartDequeue);
    case TreiberPart(s) =>
      TreiberActs(s, t, if put then Treiber.StartPush(item, node) else Treiber.StartPop);
  }

  /** What an operation that is about to return has done. */
  lemma ReturnsEffect(p: Part, t: nat, put: bool)
    requires PartInv(p) && t < Threads(p) && InOperation(p, t, put) && Returns(p, t)
    ensures Inner(p, t).effect == if put then [Added(t, LastOp(p, t), LastItem(p, t))]
                                  else if Got(p, t).Some? then [Removed(t, LastOp(p, t), Got(p, t).value)] else []
  {
  }

  lemma OtherUntouched(p: Part, t: nat, put: bool, item: int, node: nat, u: nat)
    requires t < Threads(p) && u < Threads(p) && u != t
    ensures var p' := StepPart(p, t, put, item, node);
            Threads(p') == Threads(p) && Inner(p', u) == Inner(p, u).(log := LogOf(p'))
            && LastItem(p', u) == LastItem(p, u) && LastOp(p', u) == LastOp(p, u) && Inactive(p', u) == Inactive(p, u)
  {
    hide MsCalls.Effect, TrCalls.Effect;
  }

  lemma InactiveEffect(p: Part, t: nat)
    requires t < Threads(p) && Inactive(p, t)
    ensures Inner(p, t).effect == [] && Inner(p, t).idle
  {
  }

  lemma InnerLog(p: Part, t: nat)
    requires t < Threads(p)
    ensures Inner(p, t).log == LogOf(p) && (Inner(p, t).idle <==> Inactive(p, t))
  {
  }

  // ------------------------------------------------------------------ one call

  /** What the present call of thread `t` has done on structure `b`. */
  function EffectAt(s: State, t: nat, b: nat): seq<Event>
    requires t < |s.locals| && b < |s.parts| && t < Threads(s.parts[b])
  {
    var l, p := s.locals[t], s.parts[b];
    if l.index != b then []
    else if l.pc.Put? || l.pc.Get? then Inner(p, t).effect
    else if l.pc.Return? && l.result.True? then [Added(t, LastOp(p, t), LastItem(p, t))]
    else if l.pc.Return? && l.result.TrueValue? then [Removed(t, LastOp(p, t), l.result.value)]
    else []
  }

  /** The argument of a put, on whichever structure. */
  function Argument(s: State, t: nat): int
    requires t < |s.locals|
  {
    var l := s.locals[t];
    if l.pc.Put? || (l.pc.Return? && l.result.True?) then l.item else 0
  }

  predicate Putting(l: Local) {
    l.pc.Put? || (l.pc.Return? && l.result.True?)
  }

  function ViewAt(s: State, t: nat, b: nat): View
    requires t < |s.locals| && b < |s.parts| && t < Threads(s.parts[b])
  {
    View(LogOf(s.parts[b]), s.locals[t].pc.Idle?, EffectAt(s, t, b), Putting(s.locals[t]), Argument(s, t))
  }

  /** The item of a put is the one handed to the partial structure. */
  ghost predicate HandedOn(s: State, t: nat) {
    t < |s.locals| ==>
      && (s.locals[t].pc.Return? ==> !s.locals[t].result.NoResult?)
      && (Putting(s.locals[t]) && s.locals[t].index < |s.parts| && t < Threads(s.parts[s.locals[t].index]) ==>
            var p := s.parts[s.locals[t].index];
            s.locals[t].pc.Return? || !Inactive(p, t) ==> LastItem(p, t) == s.locals[t].item)
  }

  ghost predicate Good(s: State) {
    Inv(s) && forall t: nat {:trigger HandedOn(s, t)} :: HandedOn(s, t)
  }

  // ------------------------------------------------------------------ one step

  lemma Facts(s: State, t: nat)
    requires Inv(s) && t < |s.locals|
    ensures s.locals[t].index < |s.parts|
    ensures forall b: nat {:trigger s.parts[b]} :: b < |s.parts| ==> PartInv(s.parts[b]) && Threads(s.parts[b]) == |s.locals|
  {
    hide PartInv, Passing, Checking;
    assert LocalOk(s.parts, s.locals[t]);
    forall b: nat | b < |s.parts| ensures PartInv(s.parts[b]) && Threads(s.parts[b]) == |s.locals| {
      assert PartOk(s, b);
    }
  }

  lemma Activity(s: State, t: nat, b: nat)
    requires Inv(s) && t < |s.locals| && b < |s.parts|
    ensures t < Threads(s.parts[b])
    ensures var l := s.locals[t];
            if l.index == b && l.pc.Put? then InOperation(s.parts[b], t, true)
            else if l.index == b && l.pc.Get? then InOperation(s.parts[b], t, false)
            else Inactive(s.parts[b], t)
  {
    hide PartInv, Passing, Checking, InOperation, Inactive;
    assert PartOk(s, b) && ActiveOk(s, t, b);
  }

  /** What a step of a put does to the structure it is on. */
  lemma PutPart(s: State, t: nat, c: Choice)
    requires Good(s) && t < |s.locals| && s.locals[t].pc.Put?
    ensures var l, s' := s.locals[t], Step(s, t, c);
            && l.index < |s.parts| && t < Threads(s.parts[l.index]) && |s'.parts| == |s.parts| && |s'.locals| == |s.locals|
            && t < Threads(s'.parts[l.index])
            && var p, p' := s.parts[l.index], s'.parts[l.index];
               && LogOf(p) <= LogOf(p') && (forall j {:trigger LogOf(p')[j]} :: |LogOf(p)| <= j < |LogOf(p')| ==> LogOf(p')[j].tid == t)
               && (if Returns(p, t) then LogOf(p') == LogOf(p) && Inner(p, t).effect == [Added(t, LastOp(p', t), LastItem(p', t))]
                   else Inner(p', t).effect == Inner(p, t).effect + LogOf(p')[|LogOf(p)|..])
               && (Returns(p, t) || !Inactive(p', t) ==> LastItem(p', t) == l.item)
  {
    var l := s.locals[t];
    StepParts(s, t, c);
    Facts(s, t);
    Activity(s, t, l.index);
    assert HandedOn(s, t);
    var p := s.parts[l.index];
    hide Step, Inv, PartInv, InOperation;
    PartActs(p, t, true, l.item, c.node);
    var p' := StepPart(p, t, true, l.item, c.node);
    hide StepPart;
    if Returns(p, t) { ReturnsEffect(p, t, true); }
    if Inactive(p, t) { InactiveEffect(p, t); }
    if Inactive(p', t) { InactiveEffect(p', t); }
    InnerLog(p, t);
    InnerLog(p', t);
    ReturnsActive(p, t);
    hide Inner, LogOf, Returns, Inactive, LastItem, LastOp, Threads;
  }

  /** A put takes a step in its operation on one structure. */
  lemma PutSeen(s: State, t: nat, c: Choice, b: nat)
    requires Good(s) && t < |s.locals| && s.locals[t].pc.Put? && b < |s.parts|
    ensures var s' := Step(s, t, c);
            && |s'.parts| == |s.parts| && |s'.locals| == |s.locals| && t < Threads(s.parts[b]) && t < Threads(s'.parts[b])
            && Acting(ViewAt(s, t, b), ViewAt(s', t, b), t) && HandedOn(s', t)
  {
    StepParts(s, t, c);
    PutPart(s, t, c);
    PutOutcome(s, t, c);
    Activity(s, t, b);
    hide Step, StepPart, Inv, Inner, LogOf, Returns, Inactive, LastItem, LastOp, InOperation;
  }

  lemma PutOutcome(s: State, t: nat, c: Choice)
    requires Inv(s) && t < |s.locals| && s.locals[t].pc.Put? && s.locals[t].index < |s.parts|
    requires t < Threads(s.parts[s.locals[t].index])
    ensures var l, l', p := s.locals[t], Step(s, t, c).locals[t], s.parts[s.locals[t].index];
            l' == if Returns(p, t) then l.(pc := Return, result := True) else l
  {
    hide Inv, StepPart, Words, Returns, Got, Stored, Threads;
  }

  lemma ReturnsActive(p: Part, t: nat)
    requires t < Threads(p)
    ensures Returns(p, t) ==> !Inactive(p, t)
  {
  }

  /** Where a get goes on. */
  lemma GetOutcome(s: State, t: nat, c: Choice)
    requires Inv(s) && t < |s.locals| && s.locals[t].pc.Get? && s.locals[t].index < |s.parts|
    requires t < Threads(s.parts[s.locals[t].index])
    ensures var l, l', p := s.locals[t], Step(s, t, c).locals[t], s.parts[s.locals[t].index];
            if !Returns(p, t) then l' == l
            else if Got(p, t).Some? then l'.pc.Return? && l'.result == TrueValue(Got(p, t).value) && l'.index == l.index
            else l'.pc.Get? || l'.pc.Check?
  {
    hide Inv, StepPart, Words, Returns, Got, Stored, Threads;
  }

  lemma GetPart(s: State, t: nat, c: Choice)
    requires Good(s) && t < |s.locals| && s.locals[t].pc.Get?
    ensures var l, s' := s.locals[t], Step(s, t, c);
            && l.index < |s.parts| && t < Threads(s.parts[l.index]) && |s'.parts| == |s.parts| && |s'.locals| == |s.locals|
            && t < Threads(s'.parts[l.index])
            && var p, p' := s.parts[l.index], s'.parts[l.index];
               && LogOf(p) <= LogOf(p') && (forall j {:trigger LogOf(p')[j]} :: |LogOf(p)| <= j < |LogOf(p')| ==> LogOf(p')[j].tid == t)
               && if Returns(p, t) then
                    && LogOf(p') == LogOf(p) && Inner(p', t).effect == []
                    && Inner(p, t).effect == if Got(p, t).Some? then [Removed(t, LastOp(p', t), Got(p, t).value)] else []
                  else Inner(p', t).effect == Inner(p, t).effect + LogOf(p')[|LogOf(p)|..]
  {
    var l := s.locals[t];
    StepParts(s, t, c);
    Facts(s, t);
    Activity(s, t, l.index);
    var p := s.parts[l.index];
    hide Step, Inv, PartInv, InOperation;
    PartActs(p, t, false, l.item, c.node);
    var p' := StepPart(p, t, false, l.item, c.node);
    hide StepPart;
    if Returns(p, t) { ReturnsEffect(p, t, false); }
    if Inactive(p, t) { InactiveEffect(p, t); }
    if Inactive(p', t) { InactiveEffect(p', t); }
    InnerLog(p, t);
    InnerLog(p', t);
    ReturnsActive(p, t);
    hide Inner, LogOf, Returns, Inactive, LastItem, LastOp, Got, HandedOn, Threads;
  }

  /** So does a get. */
  lemma GetSeen(s: State, t: nat, c: Choice, b: nat)
    requires Good(s) && t < |s.locals| && s.locals[t].pc.Get? && b < |s.parts|
    ensures var s' := Step(s, t, c);
            && |s'.parts| == |s.parts| && |s'.locals| == |s.locals| && t < Threads(s.parts[b]) && t < Threads(s'.parts[b])
            && Acting(ViewAt(s, t, b), ViewAt(s', t, b), t)
  {
    StepParts(s, t, c);
    GetPart(s, t, c);
    GetOutcome(s, t, c);
    Activity(s, t, b);
    if b != s.locals[t].index { InactiveEffect(s.parts[b], t); }
    hide Step, StepPart, Inv, Inner, LogOf, Returns, Inactive, LastItem, LastOp, Got, InOperation, HandedOn;
  }

  /** Where the steps go that touch no partial structure. */
  lemma OuterOutcome(s: State, t: nat, c: Choice)
    requires Inv(s) && t < |s.locals| && !s.locals[t].pc.Put? && !s.locals[t].pc.Get? && s.locals[t].index < |s.parts|
    requires t < Threads(s.parts[s.locals[t].index])
    ensures var l, l' := s.locals[t], Step(s, t, c).locals[t];
            if l.pc.Idle? then l'.pc.Put? || l'.pc.Get?
            else if l.pc.Return? then l'.pc.Idle?
            else l'.pc.Get? || l'.pc.Check? || (l'.pc.Return? && l'.result.False?)
  {
    hide Inv, StepPart, Words, Threads;
  }

  lemma OuterSeen(s: State, t: nat, c: Choice, b: nat)
    requires Good(s) && t < |s.locals| && !s.locals[t].pc.Put? && !s.locals[t].pc.Get? && b < |s.parts|
    ensures var s' := Step(s, t, c);
            && |s'.parts| == |s.parts| && |s'.locals| == |s.locals| && t < Threads(s.parts[b]) && t < Threads(s'.parts[b])
            && Acting(ViewAt(s, t, b), ViewAt(s', t, b), t) && HandedOn(s', t)
  {
    var s', l := Step(s, t, c), s.locals[t];
    StepParts(s, t, c);
    Activity(s, t, b);
    OuterOutcome(s, t, c);
    InactiveEffect(s.parts[b], t);
    if s'.locals[t].index < |s.parts| { Activity(s, t, s'.locals[t].index); }
    hide Step, Inv, PartInv, Inner, LogOf, LastItem, LastOp, Inactive;
  }

  lemma StepParts(s: State, u: nat, c: Choice)
    requires Inv(s) && u < |s.locals|
    ensures var l, s' := s.locals[u], Step(s, u, c);
            && l.index < |s.parts| && u < Threads(s.parts[l.index])
            && s'.locals == s.locals[u := s'.locals[u]]
            && s'.parts == if l.pc.Put? || l.pc.Get? then s.parts[l.index := StepPart(s.parts[l.index], u, l.pc.Put?, l.item, c.node)]
                           else s.parts
  {
    Facts(s, u);
    Activity(s, u, s.locals[u].index);
    hide Inv, PartInv, InOperation, StepPart, Words, AfterGet;
  }

  /** A step of another thread in its operation on a structure. */
  lemma OtherPart(p: Part, u: nat, put: bool, item: int, node: nat, t: nat)
    requires PartInv(p) && u < Threads(p) && t < Threads(p) && u != t && InOperation(p, u, put)
    ensures var p' := StepPart(p, u, put, item, node);
            && Threads(p') == Threads(p) && GrownByOthers(LogOf(p), LogOf(p'), t)
            && Inner(p', t).effect == Inner(p, t).effect
            && LastItem(p', t) == LastItem(p, t) && LastOp(p', t) == LastOp(p, t) && Inactive(p', t) == Inactive(p, t)
  {
    PartActs(p, u, put, item, node);
    OtherUntouched(p, u, put, item, node, t);
    InnerLog(p, u);
    InnerLog(StepPart(p, u, put, item, node), u);
    hide Inner, LogOf, PartInv, InOperation, StepPart, Returns, Inactive;
  }

  lemma OtherSeen(s: State, u: nat, c: Choice, t: nat, b: nat)
    requires Good(s) && u < |s.locals| && t < |s.locals| && u != t && b < |s.parts|
    ensures var s' := Step(s, u, c);
            && |s'.parts| == |s.parts| && |s'.locals| == |s.locals| && t < Threads(s.parts[b]) && t < Threads(s'.parts[b])
            && Watching(ViewAt(s, t, b), ViewAt(s', t, b), t)
  {
    var l := s.locals[u];
    StepParts(s, u, c);
    Facts(s, u);
    Activity(s, u, l.index);
    if l.pc.Put? || l.pc.Get? {
      OtherPart(s.parts[l.index], u, l.pc.Put?, l.item, c.node, t);
    }
    hide Step, StepPart, Inv, PartInv, InOperation, Inner, LogOf, Returns, Inactive, LastItem, LastOp;
  }

  lemma OtherHandedOn(s: State, u: nat, c: Choice, t: nat)
    requires Good(s) && u < |s.locals| && u != t
    ensures HandedOn(Step(s, u, c), t)
  {
    var l := s.locals[u];
    StepParts(s, u, c);
    Facts(s, u);
    Activity(s, u, l.index);
    assert HandedOn(s, t);
    if (l.pc.Put? || l.pc.Get?) && t < |s.locals| {
      OtherPart(s.parts[l.index], u, l.pc.Put?, l.item, c.node, t);
    }
    hide Step, StepPart, Inv, PartInv, InOperation, Inner, LogOf, Returns, Inactive, LastItem, LastOp;
  }

  lemma OwnSeen(s: State, t: nat, c: Choice, b: nat)
    requires Good(s) && t < |s.locals| && b < |s.parts|
    ensures var s' := Step(s, t, c);
            && |s'.parts| == |s.parts| && |s'.locals| == |s.locals| && t < Threads(s.parts[b]) && t < Threads(s'.parts[b])
            && Acting(ViewAt(s, t, b), ViewAt(s', t, b), t)
  {
    hide Good, Step, ViewAt, Threads;
    if s.locals[t].pc.Put? { PutSeen(s, t, c, b); }
    else if s.locals[t].pc.Get? { GetSeen(s, t, c, b); }
    else { OuterSeen(s, t, c, b); }
  }

  lemma OwnHandedOn(s: State, t: nat, c: Choice)
    requires Good(s) && t < |s.locals|
    ensures HandedOn(Step(s, t, c), t)
  {
    Facts(s, t);
    hide Step, ViewAt, Threads, Inv;
    if s.locals[t].pc.Put? { PutSeen(s, t, c, s.locals[t].index); }
    else if s.locals[t].pc.Get? { GetHandedOn(s, t, c); }
    else { OuterSeen(s, t, c, s.locals[t].index); }
  }

  lemma GetHandedOn(s: State, t: nat, c: Choice)
    requires Good(s) && t < |s.locals| && s.locals[t].pc.Get?
    ensures HandedOn(Step(s, t, c), t)
  {
    hide Inv, StepPart, LastItem, Inactive, Returns, Words;
    Facts(s, t);
  }

  lemma GoodStep(s: State, u: nat, c: Choice)
    requires Good(s) && u < |s.locals|
    ensures Good(Step(s, u, c))
  {
    StepKeeps(s, u, c);
    var s' := Step(s, u, c);
    hide Inv, Step, HandedOn;
    forall t: nat ensures HandedOn(s', t) {
      if t == u { OwnHandedOn(s, u, c); } else { OtherHandedOn(s, u, c, t); }
    }
  }

  lemma {:induction false} RunGood(run: seq<State>, k: nat)
    requires IsRun(run) && k < |run|
    ensures Good(run[k]) && |run[k].parts| == |run[0].parts| && |run[k].locals| == |run[0].locals|
    decreases k
  {
    hide Inv, Step, HandedOn;
    RunInv(run, k);
    if k == 0 {
      GoodAtStart(run[0]);
    } else {
      RunGood(run, k - 1);
      var u, c := StepAt(run, k);
      StepParts(run[k - 1], u, c);
      GoodStep(run[k - 1], u, c);
    }
  }

  lemma GoodAtStart(s: State)
    requires Init(s) && Inv(s)
    ensures Good(s)
  {
    hide Inv;
  }

  // ------------------------------------------------------------------ every call

  ghost function Views(run: seq<State>, t: nat, b: nat): seq<View>
    requires IsRun(run) && t < |run[0].locals| && b < |run[0].parts|
  {
    seq(|run|, k requires 0 <= k < |run| => Now(run, k, t, b))
  }

  ghost function Now(run: seq<State>, k: nat, t: nat, b: nat): View
    requires IsRun(run) && k < |run| && t < |run[0].locals| && b < |run[0].parts|
  {
    InRange(run, k, t, b);
    ViewAt(run[k], t, b)
  }

  lemma InRange(run: seq<State>, k: nat, t: nat, b: nat)
    requires IsRun(run) && k < |run| && t < |run[0].locals| && b < |run[0].parts|
    ensures t < |run[k].locals| && b < |run[k].parts| && t < Threads(run[k].parts[b])
  {
    hide Inv, HandedOn, IsRun, Threads;
    RunGood(run, k);
    Facts(run[k], t);
  }

  lemma StepSeen(run: seq<State>, k: nat, t: nat, b: nat)
    requires IsRun(run) && k + 1 < |run| && t < |run[0].locals| && b < |run[0].parts|
    ensures Through(Now(run, k, t, b), Now(run, k + 1, t, b), t)
  {
    hide Good, Step, ViewAt, Through, Acting, Watching, Threads;
    RunGood(run, k);
    InRange(run, k, t, b);
    InRange(run, k + 1, t, b);
    var u, c := StepAt(run, k + 1);
    hide IsRun;
    if u == t { OwnSeen(run[k], t, c, b); } else { OtherSeen(run[k], u, c, t, b); }
    EitherStep(ViewAt(run[k], t, b), ViewAt(run[k + 1], t, b), t);
  }

  lemma Watched(run: seq<State>, t: nat, b: nat)
    requires IsRun(run) && t < |run[0].locals| && b < |run[0].parts|
    ensures IsWatched(Views(run, t, b), t)
  {
    hide Now, Through, IsRun;
    forall k: nat ensures ThroughAt(Views(run, t, b), t, k) {
      if k + 1 < |run| { StepSeen(run, k, t, b); }
    }
  }

  /** Thread `t` makes the call `c` at instant `i`, and is still in it at instant `k`. */
  ghost predicate Call(run: seq<State>, i: nat, k: nat, t: nat, c: Choice) {
    && i < k < |run| && t < |run[i].locals| && run[i].locals[t].pc.Idle? && run[i + 1] == Step(run[i], t, c)
    && forall j {:trigger run[j]} :: i < j <= k ==> t < |run[j].locals| && !run[j].locals[t].pc.Idle?
  }

  lemma CallStart(run: seq<State>, i: nat, k: nat, t: nat, c: Choice)
    requires Call(run, i, k, t, c)
    ensures var l := run[i + 1].locals[t]; if c.put then l.pc.Put? && l.item == c.item else l.pc.Get?
  {
  }

  /** What thread `t` has done to structure `b` between two instants. */
  ghost function Done(run: seq<State>, i: nat, k: nat, t: nat, b: nat): seq<Event>
    requires i < |run| && k < |run| && b < |run[i].parts| && b < |run[k].parts|
  {
    Since(LogOf(run[k].parts[b]), |LogOf(run[i].parts[b])|, t)
  }

  /** It has done this to structure `b`, and nothing to any other. */
  ghost predicate DoneOnly(run: seq<State>, i: nat, k: nat, t: nat, b: nat, es: seq<Event>) {
    && i < |run| && k < |run| && |run[i].parts| == |run[k].parts| && b < |run[k].parts|
    && forall b1: nat {:trigger Done(run, i, k, t, b1)} :: b1 < |run[k].parts| ==> Done(run, i, k, t, b1) == if b1 == b then es else []
  }

  lemma CallOn(run: seq<State>, i: nat, k: nat, t: nat, c: Choice, b: nat)
    requires IsRun(run) && Call(run, i, k, t, c) && b < |run[0].parts|
    ensures t < |run[0].locals| && b < |run[i].parts| && b < |run[k].parts| && t < |run[k].locals| && t < Threads(run[k].parts[b])
    ensures Done(run, i, k, t, b) == EffectAt(run[k], t, b)
    ensures var l := run[k].locals[t]; Putting(l) == c.put && (c.put ==> l.item == c.item)
  {
    hide Good, Step, EffectAt, Threads, IsRun, LogOf;
    RunGood(run, i);
    RunGood(run, i + 1);
    RunGood(run, k);
    InRange(run, i, t, b);
    InRange(run, i + 1, t, b);
    InRange(run, k, t, b);
    Watched(run, t, b);
    CallStart(run, i, k, t, c);
    var vs := Views(run, t, b);
    assert vs[i] == ViewAt(run[i], t, b) && vs[i + 1] == ViewAt(run[i + 1], t, b) && vs[k] == ViewAt(run[k], t, b);
    forall j {:trigger vs[j]} | i < j <= k ensures !vs[j].idle {
      InRange(run, j, t, b);
      assert vs[j] == ViewAt(run[j], t, b);
    }
    InCall(vs, t, i, k);
  }

  /** What a thread does in one call, over all partial structures: a put adds its argument to one of them, once, and
      has done so when it returns; a get removes at most one value, from one of them, which is the one it returns,
      and none if it returns false. */
  lemma CallHasEffect(run: seq<State>, i: nat, k: nat, t: nat, c: Choice)
    requires IsRun(run) && Call(run, i, k, t, c)
    ensures exists b: nat, o: nat :: HasDone(run, i, k, t, c, b, o)
  {
    hide Good, Step, IsRun, Call, Done, EffectAt;
    CallInRange(run, i, k, t, c);
    RunGood(run, k);
    RunInv(run, k);
    hide Inv;
    Facts(run[k], t);
    var b := run[k].locals[t].index;
    forall b1: nat | b1 < |run[k].parts| ensures Done(run, i, k, t, b1) == if b1 == b then EffectAt(run[k], t, b) else [] {
      CallOn(run, i, k, t, c, b1);
      if b1 != b { ElsewhereNothing(run[k], t, b1); }
    }
    CallOn(run, i, k, t, c, b);
    EffectIs(run[k], t, b);
    assert DoneOnly(run, i, k, t, b, EffectAt(run[k], t, b));
    assert HasDone(run, i, k, t, c, b, LastOp(run[k].parts[b], t));
  }

  lemma CallInRange(run: seq<State>, i: nat, k: nat, t: nat, c: Choice)
    requires IsRun(run) && Call(run, i, k, t, c)
    ensures i < k < |run| && t < |run[k].locals| && !run[k].locals[t].pc.Idle? && |run[i].parts| == |run[k].parts| == |run[0].parts|
  {
    hide Good, Step, IsRun;
    RunGood(run, i);
    RunGood(run, k);
  }

  /** The effect of call `c` at instant `k`, on structure `b`; `o` is the number of the operation there. */
  ghost predicate HasDone(run: seq<State>, i: nat, k: nat, t: nat, c: Choice, b: nat, o: nat) {
    && k < |run| && t < |run[k].locals|
    && var l := run[k].locals[t];
       if c.put then
         && (DoneOnly(run, i, k, t, b, []) || DoneOnly(run, i, k, t, b, [Added(t, o, c.item)]))
         && (l.pc.Return? ==> l.result.True? && DoneOnly(run, i, k, t, b, [Added(t, o, c.item)]))
       else
         && (DoneOnly(run, i, k, t, b, []) || exists v :: DoneOnly(run, i, k, t, b, [Removed(t, o, v)]))
         && (l.pc.Return? ==>
               match l.result
               case TrueValue(v) => DoneOnly(run, i, k, t, b, [Removed(t, o, v)])
               case False => DoneOnly(run, i, k, t, b, [])
               case _ => false)
  }

  lemma ElsewhereNothing(s: State, t: nat, b: nat)
    requires t < |s.locals| && b < |s.parts| && t < Threads(s.parts[b]) && s.locals[t].index != b
    ensures EffectAt(s, t, b) == []
  {
  }

  lemma InnerIs(p: Part, t: nat, put: bool)
    requires PartInv(p) && t < Threads(p) && InOperation(p, t, put)
    ensures var e := Inner(p, t).effect;
            if put then e == [] || (e == [Added(t, LastOp(p, t), LastItem(p, t))] && !Inactive(p, t))
            else e == [] || exists v :: e == [Removed(t, LastOp(p, t), v)]
  {
    if !put && Inner(p, t).effect != [] {
      assert Inner(p, t).effect == [Removed(t, LastOp(p, t), Inner(p, t).effect[0].value)];
    }
  }

  lemma EffectIs(s: State, t: nat, b: nat)
    requires Good(s) && t < |s.locals| && b < |s.parts| && t < Threads(s.parts[b]) && s.locals[t].index == b && !s.locals[t].pc.Idle?
    ensures var e, l, o := EffectAt(s, t, b), s.locals[t], LastOp(s.parts[b], t);
            if Putting(l) then
              && (e == [] || e == [Added(t, o, l.item)])
              && (l.pc.Return? ==> e == [Added(t, o, l.item)])
            else
              && (e == [] || exists v :: e == [Removed(t, o, v)])
              && (l.pc.Return? ==>
                    match l.result
                    case TrueValue(v) => e == [Removed(t, o, v)]
                    case False => e == []
                    case _ => false)
  {
    Facts(s, t);
    Activity(s, t, b);
    assert HandedOn(s, t);
    var l := s.locals[t];
    if l.pc.Put? || l.pc.Get? { InnerIs(s.parts[b], t, l.pc.Put?); }
    hide Inv, PartInv, InOperation, Inner, LastItem, LastOp, Inactive;
    if l.pc.Return? && l.result.TrueValue? {
      assert EffectAt(s, t, b) == [Removed(t, LastOp(s.parts[b], t), l.result.value)];
    }
  }

  // ------------------------------------------------------------------ what false means

  /** The put of thread `t` that is about to return has got node `n` of the Michael-Scott queue `b`. */
  ghost predicate ReturnsPut(s: State, t: nat, b: nat, n: nat) {
    && t < |s.locals| && s.locals[t].pc.Return? && s.locals[t].result.True? && s.locals[t].index == b < |s.parts|
    && s.parts[b].MsPart? && t < |s.parts[b].ms.locals| && s.parts[b].ms.locals[t].node == n
  }

  ghost predicate OnRecord(s: State, t: nat) {
    forall b: nat, n: nat {:trigger ReturnsPut(s, t, b, n)} :: ReturnsPut(s, t, b, n) ==> (b, n) in s.done
  }

  lemma OtherNode(p: Part, u: nat, put: bool, item: int, node: nat, t: nat)
    requires u < Threads(p) && t < Threads(p) && u != t && p.MsPart?
    ensures var p' := StepPart(p, u, put, item, node); p'.MsPart? && p'.ms.locals[t] == p.ms.locals[t]
  {
    hide Ms.StepThread;
  }

  lemma OwnNode(p: Part, t: nat, item: int, node: nat)
    requires t < Threads(p) && Returns(p, t) && p.MsPart?
    ensures var p' := StepPart(p, t, true, item, node); p'.MsPart? && p'.ms.locals[t].node == p.ms.locals[t].node
  {
  }

  lemma DoneStep(s: State, u: nat, c: Choice)
    requires Inv(s) && u < |s.locals|
    ensures s.done <= Step(s, u, c).done
    ensures var l := s.locals[u];
            l.pc.Put? && l.index < |s.parts| && u < Threads(s.parts[l.index]) && Returns(s.parts[l.index], u) && s.parts[l.index].MsPart? ==>
              (l.index, s.parts[l.index].ms.locals[u].node) in Step(s, u, c).done
  {
    hide Inv, StepPart, Words, AfterGet;
  }

  lemma OnRecordStep(s: State, u: nat, c: Choice, t: nat)
    requires Inv(s) && u < |s.locals| && OnRecord(s, t)
    ensures OnRecord(Step(s, u, c), t)
  {
    var s', l := Step(s, u, c), s.locals[u];
    StepParts(s, u, c);
    DoneStep(s, u, c);
    Facts(s, u);
    if t == u {
      if l.pc.Put? { PutOutcome(s, u, c); }
      else if l.pc.Get? { GetOutcome(s, u, c); }
      else { OuterOutcome(s, u, c); }
    }
    hide Step, Inv;
    forall b: nat, n: nat | ReturnsPut(s', t, b, n) ensures (b, n) in s'.done {
      if t == u {
        if Returns(s.parts[b], u) && s.parts[b].MsPart? { OwnNode(s.parts[b], u, l.item, c.node); }
        KindStays(s.parts[l.index], u, l.pc.Put?, l.item, c.node);
      } else {
        KindStays(s.parts[l.index], u, l.pc.Put?, l.item, c.node);
        if s.parts[b].MsPart? && b == l.index && t < Threads(s.parts[b]) { OtherNode(s.parts[b], u, l.pc.Put?, l.item, c.node, t); }
        assert ReturnsPut(s, t, b, n);
      }
    }
  }

  lemma KindStays(p: Part, u: nat, put: bool, item: int, node: nat)
    requires u < Threads(p)
    ensures var p' := StepPart(p, u, put, item, node); p'.MsPart? == p.MsPart? && Threads(p') == Threads(p)
  {
  }

  lemma {:induction false} RunOnRecord(run: seq<State>, k: nat, t: nat)
    requires IsRun(run) && k < |run|
    ensures OnRecord(run[k], t)
    decreases k
  {
    hide Inv, Step;
    if k == 0 {
    } else {
      RunOnRecord(run, k - 1, t);
      RunInv(run, k - 1);
      var u, c := StepAt(run, k);
      hide OnRecord;
      OnRecordStep(run[k - 1], u, c, t);
    }
  }

  lemma {:induction false} DoneGrows(run: seq<State>, j: nat, k: nat)
    requires IsRun(run) && j <= k < |run|
    ensures run[j].done <= run[k].done
    decreases k
  {
    hide Inv, Step;
    if j < k {
      DoneGrows(run, j, k - 1);
      RunInv(run, k - 1);
      var u, c := StepAt(run, k);
      DoneStep(run[k - 1], u, c);
    }
  }

  /** The node that a returning put has got holds its item. */
  lemma NodeOfPut(run: seq<State>, j: nat, t: nat, b: nat, n: nat)
    requires IsRun(run) && j < |run| && ReturnsPut(run[j], t, b, n)
    ensures run[j].parts[b].ms.locals[t].item == run[j].locals[t].item
  {
    hide Inv, IsRun;
    RunGood(run, j);
    assert HandedOn(run[j], t);
  }

  /** A get that returns false met, during the call, an instant at which all partial structures were empty at once; of
      the puts that had got to their return by then, no node was left in any Michael-Scott queue. */
  lemma FalseMeansEmpty(run: seq<State>, k: nat, t: nat)
    requires IsRun(run) && k < |run| && t < |run[k].locals| && run[k].locals[t].pc.Return? && run[k].locals[t].result.False?
    ensures exists i: nat :: i < k && t < |run[i].locals| && run[i].locals[t].op == run[k].locals[t].op
              && (forall b: nat {:trigger run[i].parts[b]} :: b < |run[i].parts| ==> Empty(run[i].parts[b]))
              && forall j: nat, u: nat, b: nat, n: nat {:trigger ReturnsPut(run[j], u, b, n)} ::
                   j <= i && ReturnsPut(run[j], u, b, n) ==>
                     b < |run[i].parts| && run[i].parts[b].MsPart? && n <= run[i].parts[b].ms.heap.head.node
  {
    hide IsRun, Empty, ReturnsPut;
    EmptyTogether(run, k, t);
    var i: nat :| i < k && t < |run[i].locals| && run[i].locals[t].op == run[k].locals[t].op && AllEmpty(run[i]);
    forall j: nat, u: nat, b: nat, n: nat | j <= i && ReturnsPut(run[j], u, b, n)
      ensures b < |run[i].parts| && run[i].parts[b].MsPart? && n <= run[i].parts[b].ms.heap.head.node
    {
      RunOnRecord(run, j, u);
      DoneGrows(run, j, i);
      assert (b, n) in run[i].done;
    }
  }

  // ------------------------------------------------------------------ what gets return was put

  /** On every structure, no value has been removed more often than it was added. */
  lemma NoMoreThanPut(run: seq<State>, k: nat, b: nat)
    requires IsRun(run) && k < |run| && b < |run[k].parts|
    ensures RemovedValues(LogOf(run[k].parts[b])) <= AddedValues(LogOf(run[k].parts[b]))
  {
    RunInv(run, k);
    assert PartOk(run[k], b);
    PartConserves(run[k].parts[b]);
  }

  lemma PartConserves(p: Part)
    requires PartInv(p)
    ensures RemovedValues(LogOf(p)) <= AddedValues(LogOf(p))
  {
    hide MsProof.Shape, MsProof.LocalInv, TrProof.Shape, TrProof.LocalInv, Ms.Contents, Treiber.Contents;
    match p
    case MsPart(s) => QueueConserves(s.heap.log);
    case TreiberPart(s) => StackConserves(s.heap.log);
  }

  /** A thread in a call has started it. */
  lemma {:induction false} CallOf(run: seq<State>, k: nat, t: nat) returns (i: nat, c: Choice)
    requires IsRun(run) && k < |run| && t < |run[k].locals| && !run[k].locals[t].pc.Idle?
    ensures Call(run, i, k, t, c)
    decreases k
  {
    hide Good, Step, Inv;
    RunGood(run, k);
    if k == 0 {
      assert false;
    } else {
      RunGood(run, k - 1);
      RunInv(run, k - 1);
      var u, d := StepAt(run, k);
      StepParts(run[k - 1], u, d);
      hide IsRun;
      if run[k - 1].locals[t].pc.Idle? {
        i, c := k - 1, d;
      } else {
        i, c := CallOf(run, k - 1, t);
      }
    }
  }

  /** Some put has been called with `x` before instant `k`. */
  ghost predicate PutCalled(run: seq<State>, k: nat, x: int) {
    exists i: nat, t: nat, c :: Starts(run, i, t, c) && i < k && c.put && c.item == x
  }

  ghost predicate Starts(run: seq<State>, i: nat, t: nat, c: Choice) {
    Call(run, i, i + 1, t, c)
  }

  /** Whatever is added to a structure is the argument of a put. */
  lemma {:induction false} AddedWasPut(run: seq<State>, k: nat, b: nat, a: nat)
    requires IsRun(run) && k < |run| && b < |run[k].parts| && a < |LogOf(run[k].parts[b])| && LogOf(run[k].parts[b])[a].Added?
    ensures PutCalled(run, k, LogOf(run[k].parts[b])[a].value)
    decreases k
  {
    hide Good, Step, Inv, Call, Starts;
    RunGood(run, k);
    if k == 0 {
      NothingAtStart(run[0], b);
      assert false;
    } else {
      RunGood(run, k - 1);
      var u, d := StepAt(run, k);
      NewEvents(run[k - 1], u, d, b);
      var log, log' := LogOf(run[k - 1].parts[b]), LogOf(run[k].parts[b]);
      hide IsRun, LogOf;
      if a < |log| {
        assert log'[a] == log[a];
        AddedWasPut(run, k - 1, b, a);
      } else {
        var i, c := CallOf(run, k, u);
        CallInRange(run, i, k, u, c);
        AddedInCall(run, i, k, u, c, b, a);
      }
    }
  }

  lemma NothingAtStart(s: State, b: nat)
    requires Init(s) && b < |s.parts|
    ensures LogOf(s.parts[b]) == []
  {
  }

  /** A step adds events of its thread only, and only in a call. */
  lemma NewEvents(s: State, u: nat, c: Choice, b: nat)
    requires Good(s) && u < |s.locals| && b < |s.parts|
    ensures var s' := Step(s, u, c);
            && |s'.parts| == |s.parts| && |s'.locals| == |s.locals| && LogOf(s.parts[b]) <= LogOf(s'.parts[b])
            && (LogOf(s'.parts[b]) != LogOf(s.parts[b]) ==> !s'.locals[u].pc.Idle?)
            && forall j {:trigger LogOf(s'.parts[b])[j]} :: |LogOf(s.parts[b])| <= j < |LogOf(s'.parts[b])| ==> LogOf(s'.parts[b])[j].tid == u
  {
    hide Good, Step, EffectAt, LogOf;
    OwnSeen(s, u, c, b);
  }

  lemma AddedInCall(run: seq<State>, i: nat, k: nat, u: nat, c: Choice, b: nat, a: nat)
    requires IsRun(run) && Call(run, i, k, u, c) && 0 < k && b < |run[k].parts| && |run[i].parts| == |run[k - 1].parts| == |run[k].parts|
    requires |LogOf(run[k - 1].parts[b])| <= a < |LogOf(run[k].parts[b])| && LogOf(run[k].parts[b])[a].Added?
    requires LogOf(run[k].parts[b])[a].tid == u
    ensures PutCalled(run, k, LogOf(run[k].parts[b])[a].value)
  {
    hide Good, Step, IsRun, LogOf;
    LogsGrow(run, i, k - 1, b);
    InSince(LogOf(run[k].parts[b]), |LogOf(run[i].parts[b])|, a);
    CallHasEffect(run, i, k, u, c);
    var b1: nat, o: nat :| HasDone(run, i, k, u, c, b1, o);
    assert LogOf(run[k].parts[b])[a] in Done(run, i, k, u, b);
    assert Starts(run, i, u, c) by { hide HasDone; }
  }

  lemma {:induction false} LogsGrow(run: seq<State>, i: nat, k: nat, b: nat)
    requires IsRun(run) && i <= k < |run| && b < |run[k].parts|
    ensures b < |run[i].parts| && LogOf(run[i].parts[b]) <= LogOf(run[k].parts[b])
    decreases k
  {
    hide Good, Step, LogOf, Inv;
    RunGood(run, i);
    RunGood(run, k);
    if i < k {
      RunGood(run, k - 1);
      var u, d := StepAt(run, k);
      NewEvents(run[k - 1], u, d, b);
      LogsGrow(run, i, k - 1, b);
    }
  }

  /** What a get returns is the argument of a put called before. */
  lemma GetReturnsPut(run: seq<State>, k: nat, t: nat)
    requires IsRun(run) && k < |run| && t < |run[k].locals| && run[k].locals[t].pc.Return? && run[k].locals[t].result.TrueValue?
    ensures PutCalled(run, k, run[k].locals[t].result.value)
  {
    hide Good, Step, IsRun, LogOf, Starts;
    var v := run[k].locals[t].result.value;
    var i, c := CallOf(run, k, t);
    CallHasEffect(run, i, k, t, c);
    var b: nat, o: nat :| HasDone(run, i, k, t, c, b, o);
    assert DoneOnly(run, i, k, t, b, [Removed(t, o, v)]);
    assert Done(run, i, k, t, b) == [Removed(t, o, v)];
    hide DoneOnly, HasDone, Call;
    var log := LogOf(run[k].parts[b]);
    SinceIn(log, |LogOf(run[i].parts[b])|, t, Removed(t, o, v));
    ValuesMeans(log, v);
    NoMoreThanPut(run, k, b);
    assert v in RemovedValues(log);
    assert v in AddedValues(log);
    var a: nat :| a < |log| && log[a].Added? && log[a].value == v;
    AddedWasPut(run, k, b, a);
  }
}
