/** Each call of the random-dequeue queue has exactly the effect that its argument and its result say: an enqueue links
    one node, and a dequeue deletes the node whose item it returns. */
module RandomDequeueCalls {
  import opened Histories
  import opened Calls
  import opened RandomDequeueModel
  import opened RandomDequeueProof

  // ------------------------------------------------------------------ one step

  /** What a call has done so far; the events name nodes. */
  function Effect(t: nat, l: Local): seq<Event> {
    if l.enqueue && (l.pc.EqCasTail? || l.pc.Return?) then [Added(t, l.op, l.node)]
    else if !l.enqueue && l.pc.Return? && l.result.TrueValue? then [Removed(t, l.op, l.node)]
    else []
  }

  function ViewOf(h: Heap, t: nat, l: Local): View {
    View(h.log, l.pc.Idle?, Effect(t, l), l.enqueue, if l.enqueue then l.item else 0)
  }

  ghost predicate ActingNow(h: Heap, h': Heap, t: nat, l: Local, l': Local) {
    && Acting(ViewOf(h, t, l), ViewOf(h', t, l'), t)
    && (l'.op == if l.pc.Idle? then l.op + 1 else l.op)
    && (h'.log != h.log ==> !l.pc.Idle? && Effect(t, l) == [] && |Effect(t, l')| == 1 && h'.log == h.log + Effect(t, l'))
    && (l'.pc.Idle? <==> l.pc.Return?)
  }

  lemma EnqueueSeen(h: Heap, t: nat, l: Local)
    requires Core(h) && EnqueueInv(h, l)
    ensures var (h', l') := StepEnqueue(h, t, l); ActingNow(h, h', t, l, l')
  {
    hide Window, Logged;
    assert l.pc.EqCasNext? ==> NodeOk(h, l.tailOld.node);
  }

  lemma DequeueSeen(h: Heap, t: nat, l: Local, c: Choice)
    requires Core(h) && DequeueInv(h, l)
    ensures var (h', l') := StepDequeue(h, t, l, c); ActingNow(h, h', t, l, l')
  {
    DequeueKind(h, l);
    hide Core, DequeueInv, Drained, Acting;
    if l.pc.DqCasDeleted? {
      DequeueTakes(h, t, l, c);
    } else {
      ActsNot(ViewOf(h, t, l), ViewOf(StepDequeue(h, t, l, c).0, t, StepDequeue(h, t, l, c).1), t);
    }
  }

  lemma DequeueKind(h: Heap, l: Local)
    requires DequeueInv(h, l)
    ensures !l.enqueue && (l.pc.DqCasDeleted? ==> 0 <= l.node < |h.nodes|)
  {
    hide WasTail, NextOf;
  }

  lemma DequeueTakes(h: Heap, t: nat, l: Local, c: Choice)
    requires l.pc.DqCasDeleted? && 0 <= l.node < |h.nodes| && !l.enqueue
    ensures var (h', l') := StepDequeue(h, t, l, c); ActingNow(h, h', t, l, l')
  {
    hide Acting;
    var (h', l') := StepDequeue(h, t, l, c);
    if Deref(h, l.node).deleted {
      ActsNot(ViewOf(h, t, l), ViewOf(h', t, l'), t);
    } else {
      ActsOnce(ViewOf(h, t, l), ViewOf(h', t, l'), t, Removed(t, l.op, l.node));
    }
  }

  lemma EffectStep(h: Heap, t: nat, l: Local, c: Choice)
    requires Core(h) && LocalInv(h, t, l)
    ensures var (h', l') := StepThread(h, t, l, c); ActingNow(h, h', t, l, l')
  {
    hide Core, EnqueueInv, DequeueInv, StepEnqueue, StepDequeue;
    if InEnqueue(l.pc) { EnqueueSeen(h, t, l); } else if InDequeue(l.pc) { DequeueSeen(h, t, l, c); }
  }

  lemma StepSeen(s: State, u: nat, c: Choice, t: nat)
    requires Inv(s) && u < |s.locals| && t < |s.locals|
    ensures var s' := Step(s, u, c); Through(ViewOf(s.heap, t, s.locals[t]), ViewOf(s'.heap, t, s'.locals[t]), t)
  {
    hide Core, LocalInv, StepThread, Through;
    var s' := Step(s, u, c);
    EffectStep(s.heap, u, s.locals[u], c);
    EitherStep(ViewOf(s.heap, t, s.locals[t]), ViewOf(s'.heap, t, s'.locals[t]), t);
  }

  // ------------------------------------------------------------------ every call

  function Views(run: seq<State>, t: nat): seq<View>
    requires forall k :: 0 <= k < |run| ==> t < |run[k].locals|
  {
    seq(|run|, k requires 0 <= k < |run| => ViewOf(run[k].heap, t, run[k].locals[t]))
  }

  lemma Watched(run: seq<State>, t: nat)
    requires IsRun(run) && t < |run[0].locals|
    ensures forall k :: 0 <= k < |run| ==> t < |run[k].locals|
    ensures IsWatched(Views(run, t), t)
  {
    forall k | 0 <= k < |run| ensures t < |run[k].locals| {
      RunInv(run, k);
    }
    hide Core, LocalInv, StepThread, ViewOf, Inv;
    forall k: nat ensures ThroughAt(Views(run, t), t, k) {
      if k + 1 < |run| {
        RunInv(run, k);
        var u, c := StepAt(run, k + 1);
        StepSeen(run[k], u, c, t);
      }
    }
  }

  /** Thread `t` makes the call `c` at instant `i`, and is still in it at instant `k`. */
  ghost predicate Call(run: seq<State>, i: nat, k: nat, t: nat, c: Choice) {
    && i < k < |run| && t < |run[i].locals| && run[i].locals[t].pc.Idle? && run[i + 1] == Step(run[i], t, c)
    && forall j {:trigger run[j]} :: i < j <= k ==> t < |run[j].locals| && !run[j].locals[t].pc.Idle?
  }

  ghost predicate IsItem(h: Heap, n: int, x: int) {
    0 <= n < |h.nodes| && h.nodes[n].value == x
  }

  lemma CallStart(run: seq<State>, i: nat, k: nat, t: nat, c: Choice)
    requires Call(run, i, k, t, c)
    ensures var l := run[i + 1].locals[t]; l.enqueue == c.enqueue && (c.enqueue ==> l.item == c.item) && l.op == run[i].locals[t].op + 1
  {
  }

  /** What a thread does in one call: an enqueue links one node with its argument, once, and has done so when it
      returns; a dequeue deletes at most one node, whose item is the one it returns, and none if it returns false. */
  lemma CallHasEffect(run: seq<State>, i: nat, k: nat, t: nat, c: Choice)
    requires IsRun(run) && Call(run, i, k, t, c)
    ensures var h, l := run[k].heap, run[k].locals[t];
            var mine := Since(h.log, |run[i].heap.log|, t);
            && l.enqueue == c.enqueue
            && if c.enqueue then
                 && l.item == c.item
                 && (mine == [] || (mine == [Added(t, l.op, l.node)] && IsItem(h, l.node, c.item)))
                 && (l.pc.Return? ==> l.result.True? && mine == [Added(t, l.op, l.node)])
               else if !l.pc.Return? then mine == []
               else match l.result
                    case TrueValue(v) => mine == [Removed(t, l.op, l.node)] && IsItem(h, l.node, v)
                    case False => mine == []
                    case _ => false
  {
    RunInv(run, 0);
    RunInv(run, i);
    RunInv(run, k);
    EffectIs(run[k].heap, t, run[k].locals[t]);
    hide Core, LocalInv, StepThread, Inv;
    Watched(run, t);
    CallStart(run, i, k, t, c);
    InCall(Views(run, t), t, i, k);
  }

  lemma EffectIs(h: Heap, t: nat, l: Local)
    requires Core(h) && LocalInv(h, t, l) && !l.pc.Idle?
    ensures l.enqueue && Effect(t, l) != [] ==> IsItem(h, l.node, l.item)
    ensures l.pc.Return? ==> if l.enqueue then l.result.True? else
              match l.result
              case TrueValue(v) => IsItem(h, l.node, v)
              case False => true
              case _ => false
  {
  }

  /** Outside its calls a thread does nothing. */
  lemma NothingBetweenCalls(run: seq<State>, i: nat, k: nat, t: nat)
    requires IsRun(run) && i <= k < |run| && t < |run[0].locals|
    requires forall j {:trigger run[j]} :: i <= j <= k ==> t < |run[j].locals| && run[j].locals[t].pc.Idle?
    ensures Since(run[k].heap.log, |run[i].heap.log|, t) == []
  {
    Watched(run, t);
    BetweenCalls(Views(run, t), t, i, k);
  }

  // ------------------------------------------------------------------ what has been returned

  /** A dequeue, number `op` of thread `t`, has got to its return with the item of node `n`. */
  ghost predicate ReturnsNode(run: seq<State>, j: nat, t: nat, op: nat, n: int) {
    && j < |run| && t < |run[j].locals|
    && var l := run[j].locals[t];
       l.pc.Return? && !l.enqueue && l.op == op && l.node == n && l.result.TrueValue? && IsItem(run[j].heap, n, l.result.value)
  }

  /** Every deletion in the log is that of a dequeue that was at its return with the item of this node. */
  lemma {:induction false} LoggedIsReturned(run: seq<State>, k: nat, a: nat)
    requires IsRun(run) && k < |run| && a < |run[k].heap.log| && run[k].heap.log[a].Removed?
    ensures var e := run[k].heap.log[a]; exists j: nat :: ReturnsNode(run, j, e.tid, e.op, e.value) && j <= k
    decreases k
  {
    hide Core, LocalInv, StepThread, Inv;
    if k > 0 {
      var u, c := StepAt(run, k);
      RunInv(run, k - 1);
      RunInv(run, k);
      var l := run[k].locals[u];
      StepActs(run[k - 1], u, c);
      if a < |run[k - 1].heap.log| {
        assert run[k].heap.log[a] == run[k - 1].heap.log[a];
        LoggedIsReturned(run, k - 1, a);
      } else {
        EffectNow(run[k], u);
        assert ReturnsNode(run, k, u, l.op, l.node);
      }
    }
  }

  lemma StepActs(s: State, u: nat, c: Choice)
    requires Inv(s) && u < |s.locals|
    ensures var s' := Step(s, u, c); ActingNow(s.heap, s'.heap, u, s.locals[u], s'.locals[u]) && s.heap.log <= s'.heap.log
  {
    hide Core, LocalInv, StepThread;
    EffectStep(s.heap, u, s.locals[u], c);
  }

  lemma EffectNow(s: State, u: nat)
    requires Inv(s) && u < |s.locals| && !s.locals[u].pc.Idle?
    ensures var l := s.locals[u];
            && (l.enqueue && Effect(u, l) != [] ==> IsItem(s.heap, l.node, l.item))
            && (l.pc.Return? && !l.enqueue && l.result.TrueValue? ==> IsItem(s.heap, l.node, l.result.value))
  {
    hide Core;
    EffectIs(s.heap, u, s.locals[u]);
  }

  /** Some dequeue has got to its return with the item of node `n` by instant `k`. */
  ghost predicate NodeReturned(run: seq<State>, k: nat, n: int) {
    exists j: nat, t: nat, op: nat :: ReturnsNode(run, j, t, op, n) && j <= k
  }

  /** The deleted nodes are exactly those whose item some dequeue has returned. */
  lemma DeletedMeans(run: seq<State>, k: nat, n: nat)
    requires IsRun(run) && k < |run| && 1 <= n < |run[k].heap.nodes|
    ensures run[k].heap.nodes[n].deleted <==> NodeReturned(run, k, n)
  {
    hide Shape, Window, IsRun, ReturnsNode;
    RunInv(run, k);
    var h := run[k].heap;
    if h.nodes[n].deleted {
      assert HasRemoval(h.log, n);
      var a: nat :| a < |h.log| && h.log[a].Removed? && h.log[a].value == n;
      LoggedIsReturned(run, k, a);
    }
    if NodeReturned(run, k, n) {
      var j: nat, t: nat, op: nat :| ReturnsNode(run, j, t, op, n) && j <= k;
      AtReturn(run, j, t, op, n);
      Grows(run, j, k);
    }
  }

  lemma AtReturn(run: seq<State>, j: nat, t: nat, op: nat, n: nat)
    requires IsRun(run) && ReturnsNode(run, j, t, op, n)
    ensures n < |run[j].heap.nodes| && run[j].heap.nodes[n].deleted
  {
    ReturnedOnce(run, j, j, t, t);
  }

  /** A dequeue that returns false met, during the call, an instant at which the item of every node that had been
      linked had been returned by some dequeue. */
  lemma FalseMeansEmpty(run: seq<State>, k: nat, t: nat)
    requires IsRun(run) && k < |run| && t < |run[k].locals|
    requires run[k].locals[t].pc.Return? && !run[k].locals[t].enqueue && !run[k].locals[t].result.TrueValue?
    ensures exists i: nat :: i < k && |run[i].locals| == |run[k].locals| && run[i].locals[t].op == run[k].locals[t].op
                             && forall n: nat :: 1 <= n < |run[i].heap.nodes| ==> NodeReturned(run, i, n)
  {
    hide IsRun, NodeReturned;
    DequeueFalse(run, k, t);
    var i: nat :| i < k && |run[i].locals| == |run[k].locals| && run[i].locals[t].op == run[k].locals[t].op && Drained(run[i].heap);
    forall n: nat | 1 <= n < |run[i].heap.nodes| ensures NodeReturned(run, i, n) {
      DeletedMeans(run, i, n);
    }
  }

  // ------------------------------------------------------------------ distinct items

  /** The call `c`, number `op` of thread `t`, starts at instant `i`. */
  ghost predicate Starts(run: seq<State>, i: nat, t: nat, op: nat, c: Choice) {
    Call(run, i, i + 1, t, c) && run[i + 1].locals[t].op == op
  }

  /** No two enqueues are called with the same item. */
  ghost predicate DistinctItems(run: seq<State>) {
    forall i, j, t, u, o, p, c, d {:trigger Starts(run, i, t, o, c), Starts(run, j, u, p, d)} ::
      Starts(run, i, t, o, c) && Starts(run, j, u, p, d) && c.enqueue && d.enqueue && c.item == d.item ==> t == u && o == p
  }

  /** A thread in a call has started it. */
  lemma {:induction false} CallOf(run: seq<State>, k: nat, t: nat) returns (i: nat, c: Choice)
    requires IsRun(run) && k < |run| && t < |run[k].locals| && !run[k].locals[t].pc.Idle?
    ensures Call(run, i, k, t, c) && Starts(run, i, t, run[k].locals[t].op, c)
    decreases k
  {
    hide Core, LocalInv, StepThread, Inv;
    RunInv(run, 0);
    RunInv(run, k);
    if k == 0 {
      assert false;
    } else {
      RunInv(run, k - 1);
      var u, d := StepAt(run, k);
      StepActs(run[k - 1], u, d);
      hide IsRun;
      if run[k - 1].locals[t].pc.Idle? {
        i, c := k - 1, d;
      } else {
        i, c := CallOf(run, k - 1, t);
      }
    }
  }

  /** Every node in the log was linked by a call with its item. */
  lemma {:induction false} LinkedByCall(run: seq<State>, k: nat, a: nat) returns (i: nat, c: Choice)
    requires IsRun(run) && k < |run| && a < |run[k].heap.log| && run[k].heap.log[a].Added?
    ensures var e := run[k].heap.log[a]; Starts(run, i, e.tid, e.op, c) && c.enqueue && IsItem(run[k].heap, e.value, c.item)
    decreases k
  {
    hide Core, LocalInv, StepThread, Inv, Call;
    RunInv(run, k);
    if k == 0 {
      assert false;
    } else {
      RunInv(run, k - 1);
      var u, d := StepAt(run, k);
      StepActs(run[k - 1], u, d);
      StepInv(run[k - 1], u, d);
      EffectKind(u, run[k].locals[u]);
      if a < |run[k - 1].heap.log| {
        assert run[k].heap.log[a] == run[k - 1].heap.log[a];
        i, c := LinkedByCall(run, k - 1, a);
      } else {
        i, c := CallOf(run, k, u);
        hide ActingNow;
        LinkNow(run, i, k, u, c);
      }
    }
  }

  lemma EffectKind(t: nat, l: Local)
    ensures Effect(t, l) != [] && Effect(t, l)[0].Added? ==> Effect(t, l) == [Added(t, l.op, l.node)]
  {
  }

  lemma LinkNow(run: seq<State>, i: nat, k: nat, u: nat, c: Choice)
    requires IsRun(run) && Call(run, i, k, u, c)
    ensures var l := run[k].locals[u]; Effect(u, l) == [Added(u, l.op, l.node)] ==> c.enqueue && IsItem(run[k].heap, l.node, c.item)
  {
    hide Core, LocalInv, StepThread, Inv;
    RunInv(run, k);
    EffectNow(run[k], u);
    CallHasEffect(run, i, k, u, c);
  }

  /** A thread that is not past the effect of its current operation has no event of it; and no operation has two. */
  ghost predicate Fresh(s: State) {
    && (forall t: nat {:trigger s.locals[t]} :: t < |s.locals| ==>
          NoEvent(s.heap.log, t, Open(t, s.locals[t])))
    && forall a, b {:trigger s.heap.log[a], s.heap.log[b]} :: 0 <= a < b < |s.heap.log| ==>
         s.heap.log[a].tid != s.heap.log[b].tid || s.heap.log[a].op != s.heap.log[b].op
  }

  function Open(t: nat, l: Local): nat {
    l.op + if Effect(t, l) == [] && !l.pc.Idle? then 0 else 1
  }

  lemma MoreFresh(log: seq<Event>, e: Event)
    requires NoEvent(log, e.tid, e.op)
    requires forall a, b {:trigger log[a], log[b]} :: 0 <= a < b < |log| ==> log[a].tid != log[b].tid || log[a].op != log[b].op
    ensures var more := log + [e];
            forall a, b {:trigger more[a], more[b]} :: 0 <= a < b < |more| ==> more[a].tid != more[b].tid || more[a].op != more[b].op
  {
  }

  lemma StillNone(log: seq<Event>, e: Event, t: nat, op: nat)
    requires NoEvent(log, t, op) && (e.tid == t ==> e.op < op)
    ensures NoEvent(log + [e], t, op)
  {
  }

  lemma WeakerNoEvent(log: seq<Event>, t: nat, op: nat, op': nat)
    requires NoEvent(log, t, op) && op <= op'
    ensures NoEvent(log, t, op')
  {
  }

  lemma FreshStep(s: State, u: nat, c: Choice)
    requires Inv(s) && Fresh(s) && u < |s.locals|
    ensures Fresh(Step(s, u, c))
  {
    hide Core, LocalInv, StepThread, Inv, NoEvent;
    StepActs(s, u, c);
    var s' := Step(s, u, c);
    var h, h' := s.heap, s'.heap;
    assert NoEvent(h.log, u, Open(u, s.locals[u]));
    if h'.log != h.log {
      MoreFresh(h.log, Effect(u, s'.locals[u])[0]);
    }
    forall t: nat | t < |s'.locals| ensures NoEvent(h'.log, t, Open(t, s'.locals[t])) {
      assert NoEvent(h.log, t, Open(t, s.locals[t]));
      WeakerNoEvent(h.log, t, Open(t, s.locals[t]), Open(t, s'.locals[t]));
      if h'.log != h.log {
        StillNone(h.log, Effect(u, s'.locals[u])[0], t, Open(t, s'.locals[t]));
      }
    }
  }

  lemma {:induction false} RunFresh(run: seq<State>, k: nat)
    requires IsRun(run) && k < |run|
    ensures Fresh(run[k])
    decreases k
  {
    hide Core, LocalInv, StepThread, Inv, Fresh;
    if k == 0 {
      FreshAtStart(run[0]);
    } else {
      RunFresh(run, k - 1);
      RunInv(run, k - 1);
      var u, c := StepAt(run, k);
      FreshStep(run[k - 1], u, c);
    }
  }

  lemma FreshAtStart(s: State)
    requires Init(s)
    ensures Fresh(s)
  {
  }

  /** If no two enqueues are called with the same item, no two dequeues, of any threads, at any time, return the
      same item. */
  lemma ItemReturnedOnce(run: seq<State>, i: nat, k: nat, t: nat, u: nat)
    requires IsRun(run) && DistinctItems(run) && i <= k < |run| && t < |run[i].locals| && u < |run[k].locals|
    requires run[i].locals[t].pc.Return? && !run[i].locals[t].enqueue && run[i].locals[t].result.TrueValue?
    requires run[k].locals[u].pc.Return? && !run[k].locals[u].enqueue && run[k].locals[u].result == run[i].locals[t].result
    ensures t == u && run[i].locals[t].op == run[k].locals[u].op
  {
    hide Core, LocalInv, IsRun, Starts;
    ReturnedOnce(run, i, k, t, u);
    ReturnedOnce(run, k, k, u, u);
    Grows(run, i, k);
    var n, m := run[i].locals[t].node, run[k].locals[u].node;
    ReturnedNode(run, i, t);
    ReturnedNode(run, k, u);
    if n != m {
      var a := LinkOf(run, k, n);
      var b := LinkOf(run, k, m);
      var p, c := LinkedByCall(run, k, a);
      var q, d := LinkedByCall(run, k, b);
      RunFresh(run, k);
    }
  }

  lemma ReturnedNode(run: seq<State>, k: nat, t: nat)
    requires IsRun(run) && k < |run| && t < |run[k].locals|
    requires run[k].locals[t].pc.Return? && !run[k].locals[t].enqueue && run[k].locals[t].result.TrueValue?
    ensures 1 <= run[k].locals[t].node < |run[k].heap.nodes|
  {
    hide Shape, Window, IsRun;
    RunInv(run, k);
    var h, l := run[k].heap, run[k].locals[t];
    assert LocalInv(h, t, l);
    var j: nat :| j < |h.log| && h.log[j] == Removed(t, l.op, l.node);
    assert EventOk(h.nodes, h.log, j);
  }

  lemma LinkOf(run: seq<State>, k: nat, n: int) returns (a: nat)
    requires IsRun(run) && k < |run| && 1 <= n < |run[k].heap.nodes|
    ensures a < |run[k].heap.log| && run[k].heap.log[a].Added? && run[k].heap.log[a].value == n
  {
    hide Shape, Window, IsRun;
    RunInv(run, k);
    assert HasLink(run[k].heap.log, n);
    a :| 0 <= a < |run[k].heap.log| && run[k].heap.log[a].Added? && run[k].heap.log[a].value == n;
  }
}
