/** The Treiber stack is linearizable although its nodes are recycled at once. */
module TreiberProof {
  import opened Basics
  import opened Histories
  import opened Linearization
  import opened TreiberModel

  // ------------------------------------------------------------------ the invariant

  ghost predicate LinkOk(h: Heap, i: nat) {
    i < |h.stack| && h.stack[i] < |h.nodes| ==>
      h.nodes[h.stack[i]].next == if i + 1 < |h.stack| then h.stack[i + 1] else NIL
  }

  /** The stack is linked from top; no node is in it twice, and none in it is held by a thread. */
  ghost predicate Shape(h: Heap) {
    && h.top.node == (if |h.stack| > 0 then h.stack[0] else NIL)
    && (forall i {:trigger h.stack[i]} :: 0 <= i < |h.stack| ==> h.stack[i] < |h.nodes| && h.stack[i] !in h.held)
    && (forall i, j {:trigger h.stack[i], h.stack[j]} :: 0 <= i < j < |h.stack| ==> h.stack[i] != h.stack[j])
    && (forall i: nat {:trigger LinkOk(h, i)} :: LinkOk(h, i))
    && (forall n {:trigger n in h.held} :: n in h.held ==> n < |h.nodes|)
  }

  ghost predicate Core(h: Heap) {
    Shape(h) && ReplayStack(h.log) == Some(Contents(h))
  }

  /** Thread `t` holds node `n`. */
  ghost predicate Holds(h: Heap, t: nat, n: int) {
    0 <= n < |h.nodes| && n in h.held && h.held[n] == t
  }

  /** What the steps of threads other than `t` do: nothing to the nodes that `t` holds; and as long as top
      is the same, nothing to its node. Every change of top increases its version. */
  ghost predicate Rely(h: Heap, h': Heap, t: nat) {
    && |h.nodes| <= |h'.nodes|
    && (h'.top == h.top || h'.top.aba > h.top.aba)
    && (h'.top == h.top && 0 <= h.top.node < |h.nodes| ==> h'.nodes[h.top.node] == h.nodes[h.top.node])
    && (forall n: nat {:trigger Holds(h, t, n)} :: Holds(h, t, n) ==>
          Holds(h', t, n) && h'.nodes[n] == h.nodes[n])
    && (forall n: nat {:trigger Holds(h', t, n)} :: Holds(h', t, n) ==> Holds(h, t, n))
    && GrownByOthers(h.log, h'.log, t)
  }

  // ------------------------------------------------------------------ what a thread knows

  ghost predicate WasTop(h: Heap, p: Ptr) {
    p.aba < h.top.aba || p == h.top
  }

  /** Thread `t` holds node `n` and no other one. */
  ghost predicate HoldsOnly(h: Heap, t: nat, n: int) {
    forall m: nat {:trigger Holds(h, t, m)} :: Holds(h, t, m) <==> m == n
  }

  ghost predicate PushInv(h: Heap, t: nat, l: Local) {
    && l.push && NoEvent(h.log, t, l.op)
    && Holds(h, t, l.node) && HoldsOnly(h, t, l.node) && h.nodes[l.node].data == l.item
    && match l.pc
       case PuReadTop => true
       case PuWriteNext => WasTop(h, l.topOld)
       case PuCas => WasTop(h, l.topOld) && h.nodes[l.node].next == l.topOld.node
       case _ => false
  }

  ghost predicate PopInv(h: Heap, t: nat, l: Local) {
    && !l.push
    && match l.pc
       case PoReadTop => NoEvent(h.log, t, l.op) && HoldsOnly(h, t, NIL)
       case PoReadNext => NoEvent(h.log, t, l.op) && HoldsOnly(h, t, NIL) && WasTop(h, l.topOld) && 0 <= l.topOld.node < |h.nodes|
       case PoCas =>
         && NoEvent(h.log, t, l.op) && HoldsOnly(h, t, NIL) && WasTop(h, l.topOld) && 0 <= l.topOld.node < |h.nodes|
         && (h.top == l.topOld ==> l.next == h.nodes[l.topOld.node].next)
       case PoReadData =>
         && Holds(h, t, l.topOld.node) && HoldsOnly(h, t, l.topOld.node) && h.nodes[l.topOld.node].data == l.value
         && OneEvent(h.log, Removed(t, l.op, l.value))
       case _ => false
  }

  /** An operation that is about to return. */
  ghost predicate Returning(h: Heap, t: nat, l: Local) {
    if l.push then l.result.True? && OneEvent(h.log, Added(t, l.op, l.item))
    else
      match l.result
      case TrueValue(v) => OneEvent(h.log, Removed(t, l.op, v))
      case False => NoEvent(h.log, t, l.op) && l.sawEmpty && l.topOld.node == NIL && WasTop(h, l.topOld)
      case _ => false
  }

  ghost predicate LocalInv(h: Heap, t: nat, l: Local) {
    if InPush(l.pc) then PushInv(h, t, l)
    else if InPop(l.pc) then PopInv(h, t, l)
    else HoldsOnly(h, t, NIL) && if l.pc.Return? then Returning(h, t, l) else NoEvent(h.log, t, l.op + 1)
  }

  // ------------------------------------------------------------------ stability

  lemma StableHolds(h: Heap, h': Heap, t: nat, n: int)
    requires Rely(h, h', t) && HoldsOnly(h, t, n)
    ensures HoldsOnly(h', t, n)
  {
    forall m: nat ensures Holds(h', t, m) <==> m == n {
      assert Holds(h, t, m) <==> m == n;
    }
  }

  lemma Stable(h: Heap, h': Heap, t: nat, l: Local)
    requires Rely(h, h', t) && LocalInv(h, t, l)
    ensures LocalInv(h', t, l) == true
  {
    StableHolds(h, h', t, if InPush(l.pc) then l.node else if l.pc.PoReadData? then l.topOld.node else NIL);
    if l.pc.Return? && l.push {
      StableOneEvent(h.log, h'.log, Added(t, l.op, l.item));
    } else if l.pc.PoReadData? {
      StableOneEvent(h.log, h'.log, Removed(t, l.op, l.value));
    } else if l.pc.Return? && l.result.TrueValue? {
      StableOneEvent(h.log, h'.log, Removed(t, l.op, l.result.value));
    } else {
      StableNoEvent(h.log, h'.log, t, if l.pc.Idle? then l.op + 1 else l.op);
    }
  }

  // ------------------------------------------------------------------ writes to shared memory

  ghost predicate Guarantee(h: Heap, h': Heap, u: nat) {
    forall t: nat {:trigger Rely(h, h', t)} :: t != u ==> Rely(h, h', t)
  }

  lemma AtLink(h: Heap, i: nat)
    requires Shape(h)
    ensures LinkOk(h, i)
  {
  }

  /** A change of nodes that are not in the stack. */
  lemma OffStack(h: Heap, h': Heap)
    requires Core(h) && h'.top == h.top && h'.stack == h.stack && h'.log == h.log && |h.nodes| <= |h'.nodes|
    requires forall i {:trigger h.stack[i]} :: 0 <= i < |h.stack| ==>
               h'.nodes[h.stack[i]] == h.nodes[h.stack[i]] && h.stack[i] !in h'.held
    requires forall n {:trigger n in h'.held} :: n in h'.held ==> n < |h'.nodes|
    ensures Core(h') && Contents(h') == Contents(h)
  {
    forall i: nat ensures LinkOk(h', i) {
      AtLink(h, i);
    }
    assert Contents(h') == Contents(h);
  }

  lemma AllocateKeeps(h: Heap, n: nat, item: int, u: nat)
    requires Core(h) && Free(h, n) && HoldsOnly(h, u, NIL)
    ensures var h' := Allocate(h, n, item, u);
            && Core(h') && Guarantee(h, h', u) && Contents(h') == Contents(h) && h'.log == h.log
            && Holds(h', u, n) && HoldsOnly(h', u, n) && h'.nodes[n].data == item
  {
    var h' := Allocate(h, n, item, u);
    OffStack(h, h');
    forall m: nat ensures Holds(h', u, m) <==> m == n {
      assert Holds(h, u, m) <==> m == NIL;
    }
  }

  lemma SetNextKeeps(h: Heap, n: nat, next: int, u: nat)
    requires Core(h) && Holds(h, u, n) && HoldsOnly(h, u, n)
    ensures var h' := SetNext(h, n, next);
            && Core(h') && Guarantee(h, h', u) && Contents(h') == Contents(h) && h'.log == h.log
            && Holds(h', u, n) && HoldsOnly(h', u, n)
            && h'.nodes[n] == Node(next, h.nodes[n].data) && h'.top == h.top
  {
    var h' := SetNext(h, n, next);
    OffStack(h, h');
    forall m: nat ensures Holds(h', u, m) <==> m == n {
      assert Holds(h, u, m) <==> m == n;
    }
  }

  lemma ReleaseKeeps(h: Heap, n: nat, u: nat)
    requires Core(h) && Holds(h, u, n) && HoldsOnly(h, u, n)
    ensures var h' := h.(held := h.held - {n});
            Core(h') && Guarantee(h, h', u) && Contents(h') == Contents(h) && HoldsOnly(h', u, NIL)
  {
    var h' := h.(held := h.held - {n});
    OffStack(h, h');
    forall m: nat ensures !Holds(h', u, m) {
      assert Holds(h, u, m) <==> m == n;
    }
  }

  lemma PushShape(h: Heap, n: nat, item: int, u: nat, op: nat)
    requires Shape(h) && Holds(h, u, n) && h.nodes[n] == Node(h.top.node, item)
    ensures var h' := PushTop(h, n, item, u, op); Shape(h') && Contents(h') == [item] + Contents(h)
  {
    var h' := PushTop(h, n, item, u, op);
    forall i: nat ensures LinkOk(h', i) {
      if i > 0 { AtLink(h, i - 1); }
    }
    assert Contents(h') == [item] + Contents(h);
  }

  lemma PushRely(h: Heap, n: nat, item: int, u: nat, op: nat)
    requires Shape(h) && Holds(h, u, n) && HoldsOnly(h, u, n)
    ensures var h' := PushTop(h, n, item, u, op); Guarantee(h, h', u) && HoldsOnly(h', u, NIL)
  {
    hide LinkOk;
    var h' := PushTop(h, n, item, u, op);
    forall m: nat ensures !Holds(h', u, m) {
      assert Holds(h, u, m) <==> m == n;
    }
    AppendGrows(h.log, Added(u, op, item));
    hide GrownByOthers;
  }

  /** The successful CAS of a push puts its item on top. */
  lemma PushKeeps(h: Heap, n: nat, item: int, u: nat, op: nat)
    requires Core(h) && Holds(h, u, n) && HoldsOnly(h, u, n) && h.nodes[n] == Node(h.top.node, item)
    ensures var h' := PushTop(h, n, item, u, op);
            Core(h') && Guarantee(h, h', u) && HoldsOnly(h', u, NIL) && Contents(h') == [item] + Contents(h)
  {
    hide Shape, Guarantee, HoldsOnly, Contents, ReplayStack;
    PushShape(h, n, item, u, op);
    PushRely(h, n, item, u, op);
    StackAppend(h.log, Added(u, op, item));
  }

  /** The successful CAS of a pop removes the top, provided that `next` is the next pointer of top. */
  lemma PopKeeps(h: Heap, next: int, u: nat, op: nat)
    requires Core(h) && |h.stack| > 0 && HoldsOnly(h, u, NIL) && next == h.nodes[h.top.node].next
    ensures var h' := PopTop(h, next, u, op);
            && Core(h') && Guarantee(h, h', u) && Holds(h', u, h.top.node) && HoldsOnly(h', u, h.top.node)
            && Contents(h) == [h.nodes[h.top.node].data] + Contents(h') && h'.nodes == h.nodes
            && h'.log == h.log + [Removed(u, op, h.nodes[h.top.node].data)]
  {
    var h' := PopTop(h, next, u, op);
    var v := h.nodes[h.top.node].data;
    AtLink(h, 0);
    forall i: nat ensures LinkOk(h', i) {
      AtLink(h, i + 1);
    }
    assert Contents(h) == [v] + Contents(h');
    assert Contents(h)[1..] == Contents(h');
    forall m: nat ensures Holds(h', u, m) <==> m == h.top.node {
      assert Holds(h, u, m) <==> m == NIL;
    }
    AppendGrows(h.log, Removed(u, op, v));
    hide GrownByOthers, ReplayStack;
    StackAppend(h.log, Removed(u, op, v));
  }

  // ------------------------------------------------------------------ the steps

  /** What one step does to the abstract stack: nothing, or it pushes the item of this operation, or it
      removes the top on behalf of this operation. */
  ghost predicate ContentsStep(h: Heap, h': Heap, u: nat, l: Local) {
    || (h'.log == h.log && Contents(h') == Contents(h))
    || (&& l.pc.PuCas? && h'.log == h.log + [Added(u, l.op, l.item)] && Contents(h') == [l.item] + Contents(h))
    || (&& l.pc.PoCas? && |Contents(h)| > 0 && h'.log == h.log + [Removed(u, l.op, Contents(h)[0])]
        && Contents(h') == Contents(h)[1..])
  }

  ghost predicate StepOk(h: Heap, h': Heap, u: nat, l: Local, l': Local) {
    Core(h') && Guarantee(h, h', u) && LocalInv(h', u, l') && ContentsStep(h, h', u, l)
  }

  lemma PushStepKeeps(h: Heap, u: nat, l: Local)
    requires Core(h) && PushInv(h, u, l)
    ensures var (h', l') := StepPush(h, u, l); StepOk(h, h', u, l, l') == true
  {
    hide Shape, ReplayStack, OneEvent, NoEvent, HoldsOnly, Contents, PopInv;
    if l.pc.PuWriteNext? {
      SetNextKeeps(h, l.node, l.topOld.node, u);
    } else if l.pc.PuCas? && h.top == l.topOld {
      PushKeeps(h, l.node, l.item, u, l.op);
      FirstEvent(h.log, Added(u, l.op, l.item));
    }
  }

  /** A pop whose CAS succeeds has read the next pointer of a node that has been top ever since. */
  lemma PopCasKeeps(h: Heap, u: nat, l: Local)
    requires Core(h) && PopInv(h, u, l) && l.pc.PoCas? && h.top == l.topOld
    ensures var (h', l') := StepPop(h, u, l);
            && Core(h') && Guarantee(h, h', u) && l'.pc.PoReadData? && PopInv(h', u, l') && ContentsStep(h, h', u, l)
  {
    assert |h.stack| > 0;
    PopKeeps(h, l.next, u, l.op);
    FirstEvent(h.log, Removed(u, l.op, h.nodes[h.top.node].data));
    hide Shape, ReplayStack, OneEvent, NoEvent, HoldsOnly;
    assert Contents(h)[1..] == Contents(StepPop(h, u, l).0);
  }

  lemma PopStepKeeps(h: Heap, u: nat, l: Local)
    requires Core(h) && PopInv(h, u, l)
    ensures var (h', l') := StepPop(h, u, l); StepOk(h, h', u, l, l') == true
  {
    hide ReplayStack, OneEvent, NoEvent, HoldsOnly, PushInv;
    if l.pc.PoReadData? {
      ReleaseKeeps(h, l.topOld.node, u);
    } else if l.pc.PoCas? && h.top == l.topOld {
      PopCasKeeps(h, u, l);
    }
  }

  lemma StartKeeps(h: Heap, u: nat, l: Local, c: Choice)
    requires Core(h) && LocalInv(h, u, l) && l.pc.Idle?
    ensures var (h', l') := Start(h, u, l, c); StepOk(h, h', u, l, l') == true
  {
    hide Shape, ReplayStack, HoldsOnly, Contents;
    if c.StartPush? && Free(h, c.node) {
      AllocateKeeps(h, c.node, c.item, u);
    }
  }

  lemma ThreadKeeps(h: Heap, u: nat, l: Local, c: Choice)
    requires Core(h) && LocalInv(h, u, l)
    ensures var (h', l') := StepThread(h, u, l, c); StepOk(h, h', u, l, l') == true
  {
    hide Shape, ReplayStack, Contents, HoldsOnly, StepPush, StepPop, Start;
    if InPush(l.pc) { PushStepKeeps(h, u, l); }
    else if InPop(l.pc) { PopStepKeeps(h, u, l); }
    else if l.pc.Idle? { StartKeeps(h, u, l, c); }
    else { ReturnKeeps(h, u, l); }
  }

  lemma ReturnKeeps(h: Heap, u: nat, l: Local)
    requires Core(h) && LocalInv(h, u, l) && l.pc.Return?
    ensures StepOk(h, h, u, l, l.(pc := Idle)) == true
  {
  }

  // ------------------------------------------------------------------ every run

  ghost predicate Inv(s: State) {
    && Core(s.heap)
    && forall t {:trigger s.locals[t]} :: 0 <= t < |s.locals| ==> LocalInv(s.heap, t, s.locals[t])
  }

  /** Every step of every thread keeps the invariant, and does to the abstract stack what it should. */
  lemma StepInv(s: State, u: nat, c: Choice)
    requires Inv(s) && u < |s.locals|
    ensures Inv(Step(s, u, c)) && ContentsStep(s.heap, Step(s, u, c).heap, u, s.locals[u])
    ensures Guarantee(s.heap, Step(s, u, c).heap, u)
  {
    hide Core, LocalInv, StepThread, Rely, ContentsStep;
    ThreadKeeps(s.heap, u, s.locals[u], c);
    var s' := Step(s, u, c);
    forall t: nat | t < |s'.locals| ensures LocalInv(s'.heap, t, s'.locals[t]) {
      if t != u {
        assert Rely(s.heap, s'.heap, t);
        Stable(s.heap, s'.heap, t, s.locals[t]);
      }
    }
  }

  lemma StepAt(run: seq<State>, k: nat) returns (u: nat, c: Choice)
    requires IsRun(run) && 0 < k < |run|
    ensures u < |run[k - 1].locals| && run[k] == Step(run[k - 1], u, c)
  {
    assert Next(run[k - 1], run[k - 1 + 1]);
    u, c :| u < |run[k - 1].locals| && run[k] == Step(run[k - 1], u, c);
  }

  lemma {:induction false} RunInv(run: seq<State>, k: nat)
    requires IsRun(run) && k < |run|
    ensures Inv(run[k]) && |run[k].locals| == |run[0].locals|
  {
    if k == 0 {
      InitCore();
    } else {
      RunInv(run, k - 1);
      var u, c := StepAt(run, k);
      StepInv(run[k - 1], u, c);
    }
  }

  lemma InitCore()
    ensures Core(InitHeap())
  {
    forall i: nat ensures LinkOk(InitHeap(), i) {}
  }

  // ------------------------------------------------------------------ the promises

  /** At every instant the log is a legal history of a stack that ends in the present contents. */
  lemma Linearizable(run: seq<State>, k: nat)
    requires IsRun(run) && k < |run|
    ensures ReplayStack(run[k].heap.log) == Some(Contents(run[k].heap))
  {
    RunInv(run, k);
  }

  /** Every change of top strictly increases its version. */
  lemma VersionsIncrease(s: State, u: nat, c: Choice)
    requires Inv(s) && u < |s.locals| && Step(s, u, c).heap.top != s.heap.top
    ensures Step(s, u, c).heap.top.aba > s.heap.top.aba
  {
    hide Core, LocalInv, StepThread;
    StepInv(s, u, c);
    assert Rely(s.heap, Step(s, u, c).heap, u + 1);
  }

  lemma {:induction false} VersionsGrow(run: seq<State>, i: nat, k: nat)
    requires IsRun(run) && i <= k < |run|
    ensures run[k].heap.top.aba >= run[i].heap.top.aba
    ensures run[k].heap.top.aba == run[i].heap.top.aba ==> run[k].heap.top == run[i].heap.top
    decreases k - i
  {
    hide Core, LocalInv, StepThread;
    if i < k {
      VersionsGrow(run, i, k - 1);
      RunInv(run, k - 1);
      var u, c := StepAt(run, k);
      if run[k].heap.top != run[k - 1].heap.top {
        VersionsIncrease(run[k - 1], u, c);
      }
    }
  }

  /** No ABA: if top has the same value at two instants, it had that value all the time in between; so
      the CAS of a pop succeeds only if top has not changed since it was read. */
  lemma NoAba(run: seq<State>, i: nat, j: nat, k: nat)
    requires IsRun(run) && i <= j <= k < |run| && run[i].heap.top == run[k].heap.top
    ensures run[j].heap.top == run[i].heap.top
  {
    VersionsGrow(run, i, j);
    VersionsGrow(run, j, k);
  }

  /** A push that returns has pushed its item by exactly one event. */
  lemma PushReturns(run: seq<State>, k: nat, t: nat)
    requires IsRun(run) && k < |run| && t < |run[k].locals| && run[k].locals[t].pc.Return? && run[k].locals[t].push
    ensures var l := run[k].locals[t]; l.result.True? && OneEvent(run[k].heap.log, Added(t, l.op, l.item))
  {
    RunInv(run, k);
  }

  /** A pop that returns a value, which it reads only after the removal, has removed exactly that value
      by exactly one event. */
  lemma PopReturns(run: seq<State>, k: nat, t: nat)
    requires IsRun(run) && k < |run| && t < |run[k].locals| && run[k].locals[t].pc.Return? && !run[k].locals[t].push
    requires run[k].locals[t].result.TrueValue?
    ensures var l := run[k].locals[t]; OneEvent(run[k].heap.log, Removed(t, l.op, l.result.value))
  {
    RunInv(run, k);
  }

  lemma SawEmptyStep(h: Heap, u: nat, l: Local, c: Choice)
    ensures var l' := StepThread(h, u, l, c).1;
            l'.sawEmpty ==> l'.op == l.op && (l.sawEmpty || Contents(h) == [])
  {
    hide Contents;
  }

  lemma {:induction false} EmptyInstant(run: seq<State>, k: nat, t: nat)
    requires IsRun(run) && k < |run| && t < |run[k].locals| && run[k].locals[t].sawEmpty
    ensures exists i: nat :: i < k && |run[i].locals| == |run[k].locals| && run[i].locals[t].op == run[k].locals[t].op
                             && Contents(run[i].heap) == []
  {
    hide Core, LocalInv, StepThread, Contents;
    RunInv(run, k);
    RunInv(run, k - 1);
    var u, c := StepAt(run, k);
    if u == t {
      SawEmptyStep(run[k - 1].heap, t, run[k - 1].locals[t], c);
    }
    if run[k - 1].locals[t].sawEmpty {
      EmptyInstant(run, k - 1, t);
    }
  }

  /** A pop that returns false has no event, and met the empty stack. */
  lemma PopFalse(run: seq<State>, k: nat, t: nat)
    requires IsRun(run) && k < |run| && t < |run[k].locals| && run[k].locals[t].pc.Return? && !run[k].locals[t].push
    requires !run[k].locals[t].result.TrueValue?
    ensures run[k].locals[t].result.False? && NoEvent(run[k].heap.log, t, run[k].locals[t].op)
    ensures exists i: nat :: i < k && |run[i].locals| == |run[k].locals| && run[i].locals[t].op == run[k].locals[t].op
                             && Contents(run[i].heap) == []
  {
    RunInv(run, k);
    EmptyInstant(run, k, t);
  }

  lemma {:induction false} LogGrows(run: seq<State>, i: nat, k: nat)
    requires IsRun(run) && i <= k < |run|
    ensures run[i].heap.log <= run[k].heap.log
    decreases k - i
  {
    hide Core, LocalInv, StepThread, Contents;
    if i < k {
      LogGrows(run, i, k - 1);
      RunInv(run, k - 1);
      var u, c := StepAt(run, k);
      StepInv(run[k - 1], u, c);
      assert Rely(run[k - 1].heap, run[k].heap, u + 1);
    }
  }

  /** The order of the log respects real time: an event that is in the log at instant `i` precedes every
      event of an operation that starts after `i`. */
  lemma RealTimeOrder(run: seq<State>, i: nat, k: nat, a: nat, b: nat)
    requires IsRun(run) && i <= k < |run|
    requires a < |run[i].heap.log| && b < |run[k].heap.log|
    requires run[k].heap.log[b].tid < |run[i].locals|
    requires run[k].heap.log[b].op > run[i].locals[run[k].heap.log[b].tid].op
    ensures a < b && run[k].heap.log[a] == run[i].heap.log[a]
  {
    hide Core;
    LogGrows(run, i, k);
    RunInv(run, i);
    if b < |run[i].heap.log| {
      var t := run[k].heap.log[b].tid;
      assert run[k].heap.log[b] == run[i].heap.log[b];
      EventsSoFar(run[i].heap, t, run[i].locals[t]);
    }
  }

  lemma EventsSoFar(h: Heap, t: nat, l: Local)
    requires LocalInv(h, t, l)
    ensures NoEvent(h.log, t, l.op + 1)
  {
  }

  // ------------------------------------------------------------------ all operations in one history

  /** What an operation that is about to return has done. */
  function Outcome(t: nat, l: Local): Option<Event> {
    if !l.pc.Return? then None
    else if l.push then Some(Added(t, l.op, l.item))
    else if l.result.TrueValue? then Some(Removed(t, l.op, l.result.value))
    else Some(Missed(t, l.op))
  }

  function Over(l: Local): bool {
    l.pc.Idle? || l.pc.Return?
  }

  function Operations(s: State): seq<nat> {
    seq(|s.locals|, t requires 0 <= t < |s.locals| => s.locals[t].op)
  }

  function Ended(s: State): seq<bool> {
    seq(|s.locals|, t requires 0 <= t < |s.locals| => Over(s.locals[t]))
  }

  function Outcomes(s: State): seq<Option<Event>> {
    seq(|s.locals|, t requires 0 <= t < |s.locals| => Outcome(t, s.locals[t]))
  }

  function TraceOf(run: seq<State>): Trace
    requires |run| > 0
  {
    Instants(seq(|run|, k requires 0 <= k < |run| => run[k].heap.log), seq(|run|, k requires 0 <= k < |run| => Contents(run[k].heap)),
             seq(|run|, k requires 0 <= k < |run| => Operations(run[k])), seq(|run|, k requires 0 <= k < |run| => Ended(run[k])),
             seq(|run|, k requires 0 <= k < |run| => Outcomes(run[k])))
  }

  /** An operation that is over stays so, and has one result. */
  lemma OverStep(s: State, u: nat, c: Choice, t: nat)
    requires Inv(s) && u < |s.locals| && t < |s.locals|
    ensures var l, l' := s.locals[t], Step(s, u, c).locals[t];
            && l.op <= l'.op && (Outcome(t, l).Some? ==> Over(l))
            && (Over(l) && l'.op == l.op ==> Over(l') && (Outcome(t, l').None? || Outcome(t, l') == Outcome(t, l)))
  {
    hide Core, LocalInv, Contents;
  }

  lemma TraceStep(run: seq<State>, k: nat)
    requires IsRun(run) && k + 1 < |run|
    ensures StepFrom(TraceOf(run), k)
  {
    hide Core, LocalInv, Contents, StepThread;
    RunInv(run, k);
    var u, c := StepAt(run, k + 1);
    LogGrows(run, k, k + 1);
    hide IsRun;
    var tr := TraceOf(run);
    forall t: nat | t < |tr.ops[k]| ensures ThreadStep(tr, k, t) {
      OverStep(run[k], u, c, t);
    }
  }

  lemma TraceInstant(run: seq<State>, k: nat)
    requires IsRun(run) && k < |run|
    ensures InstantOk(TraceOf(run), false, k)
  {
    hide Core, StepThread, Contents;
    RunInv(run, 0);
    RunInv(run, k);
    var tr := TraceOf(run);
    Linearizable(run, k);
    forall t: nat | t < |tr.ops[k]| ensures NoEvent(tr.logs[k], t, tr.ops[k][t] + 1) {
      EventsSoFar(run[k].heap, t, run[k].locals[t]);
    }
    forall t: nat, e | t < |tr.ops[k]| && Returns(tr, k, t, e) ensures ReturnOk(tr, k, t, e) {
      if e.Missed? {
        var i := FalseInstant(run, k, t);
        assert CurrentAndEmpty(tr, i, t, e.op);
      } else if e.Added? {
        PushReturns(run, k, t);
      } else {
        PopReturns(run, k, t);
      }
    }
  }

  lemma FalseInstant(run: seq<State>, k: nat, t: nat) returns (i: nat)
    requires IsRun(run) && k < |run| && t < |run[k].locals| && run[k].locals[t].pc.Return? && !run[k].locals[t].push
    requires !run[k].locals[t].result.TrueValue?
    ensures NoEvent(run[k].heap.log, t, run[k].locals[t].op)
    ensures i < k && |run[i].locals| == |run[k].locals| && run[i].locals[t].op == run[k].locals[t].op && Contents(run[i].heap) == []
  {
    PopFalse(run, k, t);
    i :| i < k && |run[i].locals| == |run[k].locals| && run[i].locals[t].op == run[k].locals[t].op && Contents(run[i].heap) == [];
  }

  lemma RunIsTrace(run: seq<State>)
    requires IsRun(run)
    ensures IsTrace(TraceOf(run), false)
  {
    var tr := TraceOf(run);
    forall k: nat | k < |tr.logs| ensures InstantOk(tr, false, k) {
      TraceInstant(run, k);
    }
    hide InstantOk;
    forall k: nat ensures StepFrom(tr, k) {
      if k + 1 < |run| { TraceStep(run, k); }
    }
  }

  /** All operations of a run, those that return false included, are in one history that is legal
      for a stack and never revised; each takes effect between its start and its return, with
      the result it returns. */
  lemma AllOperations(run: seq<State>) returns (hs: seq<seq<Event>>)
    requires IsRun(run)
    ensures IsHistory(TraceOf(run), false, hs)
  {
    RunIsTrace(run);
    hs := Complete(TraceOf(run), false);
  }
}
