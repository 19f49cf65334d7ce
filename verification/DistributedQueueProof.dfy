/** When `get` of the distributed queue returns false, all partial structures were empty at once. */
module DistributedQueueProof {
  import opened Basics
  import opened DistributedQueueModel
  import Ms = MsQueueModel
  import MsProof = MsQueueProof
  import Treiber = TreiberModel
  import TrProof = TreiberProof

  // ------------------------------------------------------------------ one partial structure

  ghost predicate PartInv(p: Part) {
    match p
    case MsPart(s) => MsProof.Inv(s)
    case TreiberPart(s) => TrProof.Inv(s)
  }

  /** The order in which the values of the word that `empty_state` reads follow each other. */
  predicate Le(r: Raw, r': Raw) {
    r' == r || r.aba < r'.aba
  }

  /** Head has got as far as the tail that was stored; the top that was stored is null. */
  ghost predicate EmptyAs(p: Part, r: Raw) {
    match p
    case MsPart(s) => 0 <= r.node <= s.heap.head.node && r.aba == r.node
    case TreiberPart(s) => r.node == Treiber.NIL
  }

  /** What a false get_return_empty_state stored. */
  ghost predicate Recorded(p: Part, r: Raw) {
    EmptyAs(p, r) && Le(r, EmptyState(p))
  }

  /** A queue is empty, but for a node of a put that has not returned; a stack is exactly empty. */
  ghost predicate Empty(p: Part) {
    match p
    case MsPart(s) => s.heap.head.node == s.heap.tail.node
    case TreiberPart(s) => Treiber.Contents(s.heap) == []
  }

  predicate Inactive(p: Part, t: nat)
    requires t < Threads(p)
  {
    match p
    case MsPart(s) => s.locals[t].pc.Idle?
    case TreiberPart(s) => s.locals[t].pc.Idle?
  }

  /** Thread `t` is in no operation on the structure, or in one of the given kind. */
  predicate InOperation(p: Part, t: nat, put: bool)
    requires t < Threads(p)
  {
    Inactive(p, t) ||
    match p
    case MsPart(s) => s.locals[t].enqueue == put
    case TreiberPart(s) => s.locals[t].push == put
  }

  ghost predicate PartStep(p: Part, p': Part, t: nat) {
    && p.MsPart? == p'.MsPart? && Threads(p') == Threads(p)
    && Le(EmptyState(p), EmptyState(p'))
    && (p.MsPart? ==> p.ms.heap.head.node <= p'.ms.heap.head.node && p.ms.heap.tail.node <= p'.ms.heap.tail.node)
    && forall u: nat {:trigger Inactive(p', u)} {:trigger InOperation(p', u, true)} {:trigger InOperation(p', u, false)} ::
         u < Threads(p) && u != t ==>
           && Inactive(p', u) == Inactive(p, u)
           && InOperation(p', u, true) == InOperation(p, u, true) && InOperation(p', u, false) == InOperation(p, u, false)
  }

  lemma MsStep(s: Ms.State, t: nat, c: Ms.Choice)
    requires MsProof.Inv(s) && t < |s.locals|
    ensures var s' := Ms.Step(s, t, c);
            MsProof.Inv(s') && PartStep(MsPart(s), MsPart(s'), t)
  {
    var s' := Ms.Step(s, t, c);
    hide MsProof.LocalInv, Ms.StepThread, MsProof.ContentsStep;
    MsProof.StepInv(s, t, c);
    assert MsProof.Rely(s.heap, s'.heap, t + 1);
  }

  lemma TreiberStep(s: Treiber.State, t: nat, c: Treiber.Choice)
    requires TrProof.Inv(s) && t < |s.locals|
    ensures var s' := Treiber.Step(s, t, c);
            TrProof.Inv(s') && PartStep(TreiberPart(s), TreiberPart(s'), t)
  {
    var s' := Treiber.Step(s, t, c);
    hide TrProof.LocalInv, Treiber.StepThread, TrProof.ContentsStep, TrProof.Core;
    TrProof.StepInv(s, t, c);
    assert TrProof.Rely(s.heap, s'.heap, t + 1);
  }

  /** A step in an operation keeps the invariant of the structure and stays in the operation. */
  lemma StepPartKeeps(p: Part, t: nat, put: bool, item: int, node: nat)
    requires PartInv(p) && t < Threads(p) && InOperation(p, t, put)
    ensures var p' := StepPart(p, t, put, item, node);
            && PartInv(p') && PartStep(p, p', t) && InOperation(p', t, put)
            && (Returns(p, t) ==> Inactive(p', t))
  {
    InOperationKeeps(p, t, put, item, node);
    hide MsProof.Inv, TrProof.Inv, InOperation, Inactive, Returns, Ms.Step, Treiber.Step, PartStep;
    match p
    case MsPart(s) => MsStep(s, t, if put then Ms.StartEnqueue(item) else Ms.StartDequeue);
    case TreiberPart(s) => TreiberStep(s, t, if put then Treiber.StartPush(item, node) else Treiber.StartPop);
  }

  lemma InOperationKeeps(p: Part, t: nat, put: bool, item: int, node: nat)
    requires t < Threads(p) && InOperation(p, t, put)
    ensures var p' := StepPart(p, t, put, item, node);
            Threads(p') == Threads(p) && InOperation(p', t, put) && (Returns(p, t) ==> Inactive(p', t))
  {
    hide Ms.Contents, Treiber.Contents;
  }

  lemma StableRecorded(p: Part, p': Part, t: nat, r: Raw)
    requires PartStep(p, p', t) && Recorded(p, r)
    ensures Recorded(p', r)
  {
  }

  lemma LeTransitive(a: Raw, b: Raw, c: Raw)
    requires Le(a, b) && Le(b, c)
    ensures Le(a, c)
    ensures c == a ==> b == a
  {
  }

  /** A get_return_empty_state that returns false has recorded an empty state. */
  lemma FalseRecorded(p: Part, t: nat)
    requires PartInv(p) && t < Threads(p) && Returns(p, t) && InOperation(p, t, false) && Got(p, t).None?
    ensures Recorded(p, Stored(p, t))
  {
    match p
    case MsPart(s) => assert MsProof.LocalInv(s.heap, t, s.locals[t]);
    case TreiberPart(s) => assert TrProof.LocalInv(s.heap, t, s.locals[t]);
  }

  /** A put that returns has its node behind tail. */
  lemma PutDone(p: Part, t: nat)
    requires PartInv(p) && t < Threads(p) && Returns(p, t) && InOperation(p, t, true) && p.MsPart?
    ensures p.ms.locals[t].node <= p.ms.heap.tail.node
  {
    assert MsProof.LocalInv(p.ms.heap, t, p.ms.locals[t]);
  }

  /** While the word is still the recorded one, the structure is empty. */
  lemma RecordedEmpty(p: Part, r: Raw)
    requires PartInv(p) && Recorded(p, r) && EmptyState(p) == r
    ensures Empty(p)
  {
  }

  // ------------------------------------------------------------------ the invariant

  ghost predicate PartOk(s: State, b: nat) {
    b < |s.parts| ==> PartInv(s.parts[b]) && Threads(s.parts[b]) == |s.locals|
  }

  /** Thread `t` is in an operation on partial structure `b` only if its program counter says so. */
  ghost predicate ActiveOk(s: State, t: nat, b: nat) {
    b < |s.parts| && t < |s.locals| && t < Threads(s.parts[b]) ==>
      if s.locals[t].index == b && s.locals[t].pc.Put? then InOperation(s.parts[b], t, true)
      else if s.locals[t].index == b && s.locals[t].pc.Get? then InOperation(s.parts[b], t, false)
      else Inactive(s.parts[b], t)
  }

  ghost predicate RecordedAt(parts: seq<Part>, tails: seq<Raw>, b: nat) {
    b < |parts| && b < |tails| && Recorded(parts[b], tails[b])
  }

  /** Word `b` was read at the end of the first pass. */
  ghost predicate MidAt(parts: seq<Part>, l: Local, b: nat) {
    && b < |parts| && b < |l.tails| && b < |l.mid|
    && Le(l.tails[b], l.mid[b]) && Le(l.mid[b], EmptyState(parts[b]))
  }

  ghost predicate Passing(parts: seq<Part>, l: Local) {
    && l.start < |parts| && l.i < |parts| && l.index == Visit(l.start, l.i, |parts|)
    && forall j: nat {:trigger Visit(l.start, j, |parts|)} :: j < l.i ==> RecordedAt(parts, l.tails, Visit(l.start, j, |parts|))
  }

  ghost predicate Checking(parts: seq<Part>, l: Local) {
    && l.start < |parts| && l.i < |parts| && l.index == Visit(l.start, l.i, |parts|)
    && (forall b: nat {:trigger RecordedAt(parts, l.tails, b)} :: b < |parts| ==> RecordedAt(parts, l.tails, b))
    && (forall b: nat {:trigger MidAt(parts, l, b)} :: b < |parts| ==> MidAt(parts, l, b))
    && forall j: nat {:trigger Visit(l.start, j, |parts|)} :: j < l.i ==>
         var b := Visit(l.start, j, |parts|); b < |l.tails| && b < |l.mid| && l.mid[b] == l.tails[b]
  }

  ghost predicate LocalOk(parts: seq<Part>, l: Local) {
    && |l.tails| == |parts| && l.index < |parts|
    && (l.pc.Get? ==> Passing(parts, l))
    && (l.pc.Check? ==> |l.mid| == |parts| && Checking(parts, l))
    && (l.pc.Return? && l.result.False? ==> l.mid == l.tails)
  }

  ghost predicate DoneOk(s: State) {
    forall b: nat, n: nat {:trigger (b, n) in s.done} :: (b, n) in s.done ==>
      b < |s.parts| && s.parts[b].MsPart? && n <= s.parts[b].ms.heap.tail.node
  }

  ghost predicate Inv(s: State) {
    && |s.parts| > 0
    && (forall b: nat {:trigger PartOk(s, b)} :: PartOk(s, b))
    && (forall t: nat, b: nat {:trigger ActiveOk(s, t, b)} :: ActiveOk(s, t, b))
    && (forall t {:trigger s.locals[t]} :: 0 <= t < |s.locals| ==> LocalOk(s.parts, s.locals[t]))
    && DoneOk(s)
  }

  // ------------------------------------------------------------------ the passes

  /** The parts may only have gone forward. */
  ghost predicate PartsStep(parts: seq<Part>, parts': seq<Part>, t: nat) {
    |parts'| == |parts| && forall b: nat {:trigger parts'[b]} {:trigger parts[b]} :: b < |parts| ==>
      parts'[b] == parts[b] || PartStep(parts[b], parts'[b], t)
  }

  lemma StableAt(parts: seq<Part>, parts': seq<Part>, t: nat, l: Local, b: nat)
    requires PartsStep(parts, parts', t)
    ensures RecordedAt(parts, l.tails, b) ==> RecordedAt(parts', l.tails, b)
    ensures MidAt(parts, l, b) ==> MidAt(parts', l, b)
  {
    if b < |parts| && parts'[b] != parts[b] {
      if RecordedAt(parts, l.tails, b) { StableRecorded(parts[b], parts'[b], t, l.tails[b]); }
      if MidAt(parts, l, b) { LeTransitive(l.mid[b], EmptyState(parts[b]), EmptyState(parts'[b])); }
    }
  }

  lemma StableLocal(parts: seq<Part>, parts': seq<Part>, t: nat, l: Local)
    requires PartsStep(parts, parts', t) && LocalOk(parts, l)
    ensures LocalOk(parts', l)
  {
    forall b: nat
      ensures RecordedAt(parts, l.tails, b) ==> RecordedAt(parts', l.tails, b)
      ensures MidAt(parts, l, b) ==> MidAt(parts', l, b)
    {
      StableAt(parts, parts', t, l, b);
    }
  }

  /** The first pass records one more empty structure, or ends. */
  lemma PassOn(s: State, t: nat, l: Local)
    requires |l.tails| == |s.parts| > 0 && l.pc.Get? && Passing(s.parts, l) && RecordedAt(s.parts, l.tails, l.index)
    ensures LocalOk(s.parts, AfterGet(s, t, l))
  {
    var n := |s.parts|;
    var l' := AfterGet(s, t, l);
    if l.i + 1 == n {
      forall b: nat | b < n ensures RecordedAt(s.parts, l.tails, b) {
        var j := VisitsAll(l.start, n, b);
      }
      forall b: nat | b < n ensures MidAt(s.parts, l', b) {
        assert RecordedAt(s.parts, l.tails, b);
      }
    }
  }

  /** Only the last structure of a pass is followed by the one where the pass started. */
  lemma LastOfPass(start: nat, i: nat, n: nat)
    requires start < n && i < n && (Visit(start, i, n) + 1) % n == start
    ensures i == n - 1
  {
    if start + i < n {
      SmallMod(start + i, n);
      if start + i + 1 < n { SmallMod(start + i + 1, n); }
    } else {
      ModUnique(start + i, n, 1, start + i - n);
      SmallMod(start + i - n + 1, n);
    }
  }

  lemma SmallMod(a: nat, n: nat)
    requires a < n
    ensures a % n == a
  {
  }

  /** Double collect: a word that is as recorded was the same at the end of the first pass. */
  lemma CheckOn(parts: seq<Part>, l: Local)
    requires |parts| > 0 && LocalOk(parts, l) && l.pc.Check? && EmptyState(parts[l.index]) == l.tails[l.index]
    ensures l.mid[l.index] == l.tails[l.index]
    ensures (l.index + 1) % |parts| == l.start ==> l.mid == l.tails
  {
    assert MidAt(parts, l, l.index);
    LeTransitive(l.tails[l.index], l.mid[l.index], EmptyState(parts[l.index]));
    if (l.index + 1) % |parts| == l.start {
      LastOfPass(l.start, l.i, |parts|);
      forall b: nat | b < |parts| ensures l.mid[b] == l.tails[b] {
        var j := VisitsAll(l.start, |parts|, b);
      }
    }
  }

  // ------------------------------------------------------------------ the steps

  /** What a step of thread `t` may change. */
  ghost predicate Stepped(s: State, s': State, t: nat) {
    && t < |s.locals| == |s'.locals|
    && PartsStep(s.parts, s'.parts, t)
    && (forall u {:trigger s'.locals[u]} :: 0 <= u < |s.locals| && u != t ==> s'.locals[u] == s.locals[u])
  }

  lemma OthersKeep(s: State, s': State, t: nat)
    requires Inv(s) && Stepped(s, s', t)
    requires forall b: nat {:trigger PartOk(s', b)} :: PartOk(s', b)
    requires forall b: nat {:trigger ActiveOk(s', t, b)} :: ActiveOk(s', t, b)
    requires LocalOk(s'.parts, s'.locals[t]) && DoneOk(s')
    ensures Inv(s')
  {
    forall u: nat, b: nat ensures ActiveOk(s', u, b) {
      assert ActiveOk(s, u, b) && PartOk(s, b) && PartOk(s', b);
    }
    forall u: nat | u < |s.locals| ensures LocalOk(s'.parts, s'.locals[u]) {
      if u != t { StableLocal(s.parts, s'.parts, t, s.locals[u]); }
    }
  }

  /** A step in an operation on one structure. */
  lemma InnerKeeps(s: State, t: nat, put: bool, item: int, node: nat)
    requires Inv(s) && t < |s.locals| && s.locals[t].index < |s.parts|
    requires if put then s.locals[t].pc.Put? else s.locals[t].pc.Get?
    ensures var b := s.locals[t].index;
            && t < Threads(s.parts[b])
            && var p' := StepPart(s.parts[b], t, put, item, node);
            && PartInv(p') && PartStep(s.parts[b], p', t) && InOperation(p', t, put) && Threads(p') == |s.locals|
            && (Returns(s.parts[b], t) ==> Inactive(p', t))
            && PartsStep(s.parts, s.parts[b := p'], t)
  {
    var b := s.locals[t].index;
    assert PartOk(s, b) && ActiveOk(s, t, b);
    StepPartKeeps(s.parts[b], t, put, item, node);
  }

  lemma PutKeeps(s: State, t: nat, c: Choice)
    requires Inv(s) && t < |s.locals| && s.locals[t].pc.Put?
    ensures Inv(Step(s, t, c))
  {
    var s', l := Step(s, t, c), s.locals[t];
    var b := l.index;
    InnerKeeps(s, t, true, l.item, c.node);
    forall b1: nat ensures PartOk(s', b1) && ActiveOk(s', t, b1) {
      assert PartOk(s, b1) && ActiveOk(s, t, b1);
    }
    hide PartInv, PartStep, InOperation;
    StableLocal(s.parts, s'.parts, t, l);
    PutDoneOk(s, t, c);
    OthersKeep(s, s', t);
  }

  lemma PutDoneOk(s: State, t: nat, c: Choice)
    requires Inv(s) && t < |s.locals| && s.locals[t].pc.Put?
    ensures DoneOk(Step(s, t, c))
  {
    var s', l := Step(s, t, c), s.locals[t];
    var b := l.index;
    InnerKeeps(s, t, true, l.item, c.node);
    assert PartOk(s, b) && ActiveOk(s, t, b);
    if Returns(s.parts[b], t) && s.parts[b].MsPart? {
      PutDone(s.parts[b], t);
    }
  }

  lemma GetLocal(s: State, t: nat, c: Choice)
    requires Inv(s) && t < |s.locals| && s.locals[t].pc.Get?
    ensures LocalOk(Step(s, t, c).parts, Step(s, t, c).locals[t])
  {
    var s', l := Step(s, t, c), s.locals[t];
    var b := l.index;
    InnerKeeps(s, t, false, l.item, c.node);
    assert PartOk(s, b) && ActiveOk(s, t, b);
    StableLocal(s.parts, s'.parts, t, l);
    hide MsProof.Inv, TrProof.Inv;
    if Returns(s.parts[b], t) && Got(s.parts[b], t).None? {
      FalseRecorded(s.parts[b], t);
      StableRecorded(s.parts[b], s'.parts[b], t, Stored(s.parts[b], t));
      PassRecorded(s'.parts, l, Stored(s.parts[b], t));
      PassOn(s', t, l.(tails := l.tails[b := Stored(s.parts[b], t)]));
    }
  }

  lemma GetKeeps(s: State, t: nat, c: Choice)
    requires Inv(s) && t < |s.locals| && s.locals[t].pc.Get?
    ensures Inv(Step(s, t, c))
  {
    var s', l := Step(s, t, c), s.locals[t];
    var b := l.index;
    InnerKeeps(s, t, false, l.item, c.node);
    GetLocal(s, t, c);
    hide PartInv, PartStep, InOperation, Recorded, AfterGet;
    forall b1: nat ensures PartOk(s', b1) && ActiveOk(s', t, b1) {
      assert PartOk(s, b1) && ActiveOk(s, t, b1);
    }
    OthersKeep(s, s', t);
  }

  /** Recording one structure does not disturb what is recorded of the others. */
  lemma PassRecorded(parts: seq<Part>, l: Local, r: Raw)
    requires |parts| > 0 && LocalOk(parts, l) && l.pc.Get? && Recorded(parts[l.index], r)
    ensures var l' := l.(tails := l.tails[l.index := r]);
            Passing(parts, l') && RecordedAt(parts, l'.tails, l'.index)
  {
    var l' := l.(tails := l.tails[l.index := r]);
    forall j: nat | j < l.i ensures RecordedAt(parts, l'.tails, Visit(l'.start, j, |parts|)) {
      assert RecordedAt(parts, l.tails, Visit(l.start, j, |parts|));
    }
  }

  lemma StartInRange(parts: seq<Part>, l: Local)
    requires LocalOk(parts, l) && l.pc.Check?
    ensures l.start < |parts|
  {
  }

  /** A pass starts over. */
  lemma Restart(parts: seq<Part>, l: Local, start: nat)
    requires |l.tails| == |parts| && start < |parts|
    ensures LocalOk(parts, l.(pc := Get, start := start, i := 0, index := Visit(start, 0, |parts|)))
  {
  }

  /** The second pass has found one more word unchanged. */
  lemma CheckNext(parts: seq<Part>, l: Local)
    requires |parts| > 0 && LocalOk(parts, l) && l.pc.Check? && l.i + 1 < |parts|
    requires l.mid[l.index] == l.tails[l.index]
    ensures LocalOk(parts, l.(i := l.i + 1, index := Visit(l.start, l.i + 1, |parts|)))
  {
    hide Recorded, EmptyAs, Visit, Le, RecordedAt;
    var l' := l.(i := l.i + 1, index := Visit(l.start, l.i + 1, |parts|));
    forall b: nat | b < |parts| ensures MidAt(parts, l', b) {
      assert MidAt(parts, l, b);
    }
  }

  lemma CheckLocal(s: State, t: nat, c: Choice)
    requires |s.parts| > 0 && t < |s.locals| && LocalOk(s.parts, s.locals[t]) && s.locals[t].pc.Check?
    requires t < Threads(s.parts[s.locals[t].index])
    ensures LocalOk(s.parts, Step(s, t, c).locals[t]) == true
  {
    var l, n := s.locals[t], |s.parts|;
    StartInRange(s.parts, l);
    hide Recorded, EmptyAs, Checking, Passing, Visit;
    Restart(s.parts, l, l.index);
    Restart(s.parts, l, l.start);
    if EmptyState(s.parts[l.index]) == l.tails[l.index] {
      CheckOn(s.parts, l);
      if l.i + 1 < n { CheckNext(s.parts, l); }
    }
  }

  /** The steps that touch no partial structure. */
  lemma OuterKeeps(s: State, t: nat, c: Choice)
    requires Inv(s) && t < |s.locals| && !s.locals[t].pc.Put? && !s.locals[t].pc.Get?
    ensures Inv(Step(s, t, c))
  {
    hide PartInv, RecordedAt, MidAt;
    var s', l := Step(s, t, c), s.locals[t];
    assert PartOk(s, l.index);
    if l.pc.Check? {
      CheckLocal(s, t, c);
    }
    forall b: nat ensures PartOk(s', b) && ActiveOk(s', t, b) {
      assert PartOk(s, b) && ActiveOk(s, t, b);
    }
    hide Checking;
    OthersKeep(s, s', t);
  }

  lemma StepKeeps(s: State, t: nat, c: Choice)
    requires Inv(s) && t < |s.locals|
    ensures Inv(Step(s, t, c)) && |Step(s, t, c).locals| == |s.locals|
  {
    hide Inv;
    match s.locals[t].pc
    case Put => PutKeeps(s, t, c);
    case Get => GetKeeps(s, t, c);
    case _ => OuterKeeps(s, t, c);
  }

  // ------------------------------------------------------------------ every run

  lemma InitInv(s: State)
    requires Init(s)
    ensures Inv(s)
  {
    forall b: nat ensures PartOk(s, b) {
      if b < |s.parts| {
        match s.parts[b]
        case MsPart(q) =>
          assert MsProof.NodeOk(q.heap, 0);
        case TreiberPart(q) =>
          TrProof.InitCore();
      }
    }
  }

  lemma StepAt(run: seq<State>, k: nat) returns (t: nat, c: Choice)
    requires IsRun(run) && 0 < k < |run|
    ensures t < |run[k - 1].locals| && run[k] == Step(run[k - 1], t, c)
  {
    assert Next(run[k - 1], run[k - 1 + 1]);
    t, c :| t < |run[k - 1].locals| && run[k] == Step(run[k - 1], t, c);
  }

  lemma {:induction false} RunInv(run: seq<State>, k: nat)
    requires IsRun(run) && k < |run|
    ensures Inv(run[k]) && |run[k].locals| == |run[0].locals|
  {
    hide Inv;
    if k == 0 {
      InitInv(run[0]);
    } else {
      RunInv(run, k - 1);
      var t, c := StepAt(run, k);
      StepKeeps(run[k - 1], t, c);
    }
  }

  // ------------------------------------------------------------------ the promise

  predicate HasMid(l: Local) {
    l.pc.Check? || (l.pc.Return? && l.result.False?)
  }

  /** The state at the end of the first pass of thread `t`. */
  ghost predicate MidState(s: State, t: nat, l: Local) {
    && t < |s.locals| && s.locals[t].pc.Check?
    && s.locals[t].op == l.op && s.locals[t].tails == l.tails && Words(s.parts) == l.mid
  }

  lemma MidStep(s: State, t: nat, c: Choice)
    requires Inv(s) && t < |s.locals|
    requires HasMid(Step(s, t, c).locals[t])
    ensures var l, l' := s.locals[t], Step(s, t, c).locals[t];
            if HasMid(l) then l'.op == l.op && l'.tails == l.tails && l'.mid == l.mid
            else MidState(Step(s, t, c), t, l')
  {
    hide PartInv, ActiveOk;
    assert PartOk(s, s.locals[t].index);
  }

  lemma {:induction false} MidInstant(run: seq<State>, k: nat, t: nat)
    requires IsRun(run) && k < |run| && t < |run[k].locals| && HasMid(run[k].locals[t])
    ensures exists i: nat :: i <= k && MidState(run[i], t, run[k].locals[t])
  {
    hide Inv, MidState;
    RunInv(run, k);
    if k == 0 {
      assert false;
    } else {
      RunInv(run, k - 1);
      var u, c := StepAt(run, k);
      if u == t {
        MidStep(run[k - 1], t, c);
      } else {
        OtherLocal(run[k - 1], u, c, t);
      }
      if HasMid(run[k - 1].locals[t]) {
        MidInstant(run, k - 1, t);
        var i: nat :| i <= k - 1 && MidState(run[i], t, run[k - 1].locals[t]);
        SameMid(run[i], t, run[k - 1].locals[t], run[k].locals[t]);
      } else {
        assert MidState(run[k], t, run[k].locals[t]);
      }
    }
  }

  lemma OtherLocal(s: State, u: nat, c: Choice, t: nat)
    requires u < |s.locals| && t < |s.locals| && u != t
    ensures |Step(s, u, c).locals| == |s.locals| && Step(s, u, c).locals[t] == s.locals[t]
  {
  }

  lemma SameMid(s: State, t: nat, l: Local, l': Local)
    requires MidState(s, t, l) && l'.op == l.op && l'.tails == l.tails && l'.mid == l.mid
    ensures MidState(s, t, l')
  {
  }

  /** All partial structures are empty, and nothing is left of any put that has returned. */
  ghost predicate AllEmpty(s: State) {
    && (forall b: nat {:trigger s.parts[b]} :: b < |s.parts| ==> Empty(s.parts[b]))
    && forall b: nat, n: nat {:trigger (b, n) in s.done} :: (b, n) in s.done ==>
         b < |s.parts| && s.parts[b].MsPart? && n <= s.parts[b].ms.heap.head.node
  }

  /** A `get` that returns false met, during the call, an instant at which all partial structures were
      empty at once: the stacks exactly, the queues with head at tail, so that the value of every put
      that had returned had been dequeued. */
  lemma EmptyTogether(run: seq<State>, k: nat, t: nat)
    requires IsRun(run) && k < |run| && t < |run[k].locals|
    requires run[k].locals[t].pc.Return? && run[k].locals[t].result.False?
    ensures exists i: nat :: i < k && t < |run[i].locals| && run[i].locals[t].op == run[k].locals[t].op && AllEmpty(run[i])
  {
    RunInv(run, k);
    MidInstant(run, k, t);
    var l := run[k].locals[t];
    var i: nat :| i <= k && MidState(run[i], t, l);
    RunInv(run, i);
    hide PartInv, Empty;
    forall b: nat | b < |run[i].parts| ensures Empty(run[i].parts[b]) {
      assert PartOk(run[i], b);
      assert RecordedAt(run[i].parts, l.tails, b);
      assert Words(run[i].parts)[b] == EmptyState(run[i].parts[b]);
      RecordedEmpty(run[i].parts[b], l.tails[b]);
    }
    AllEmptyIntro(run[i]);
  }

  lemma AllEmptyIntro(s: State)
    requires Inv(s) && forall b: nat {:trigger s.parts[b]} :: b < |s.parts| ==> Empty(s.parts[b])
    ensures AllEmpty(s)
  {
  }
}
