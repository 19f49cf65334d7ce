/** All operations of the wait-free queue in one history, those that return false included. */
module WaitFreeHistory {
  import opened Basics
  import opened Histories
  import opened Linearization
  import opened WaitFreeModel
  import opened WaitFreeInvariant
  import opened WaitFreeTheorems

  /** What an operation that is about to return has done. */
  function Outcome(h: Heap, t: nat, l: Local): Option<Event> {
    if !l.pc.Return? || t >= |h.ops| then None
    else if l.kind.Enq? then Some(Added(t, h.ops[t], l.item))
    else if l.result.TrueValue? then Some(Removed(t, h.ops[t], l.result.value))
    else Some(Missed(t, h.ops[t]))
  }

  /** The operation last published is over. */
  predicate Over(l: Local) {
    l.pc.Return? || l.pc.Idle? || l.pc.Scan? || l.pc.ReadAba? || l.pc.Publish?
  }

  function Ended(s: State): seq<bool> {
    seq(|s.locals|, t requires 0 <= t < |s.locals| => Over(s.locals[t]))
  }

  function Outcomes(s: State): seq<Option<Event>> {
    seq(|s.locals|, t requires 0 <= t < |s.locals| => Outcome(s.heap, t, s.locals[t]))
  }

  function TraceOf(run: seq<State>): Trace
    requires |run| > 0
  {
    Instants(seq(|run|, k requires 0 <= k < |run| => run[k].heap.log), seq(|run|, k requires 0 <= k < |run| => Contents(run[k].heap)),
             seq(|run|, k requires 0 <= k < |run| => run[k].heap.ops), seq(|run|, k requires 0 <= k < |run| => Ended(run[k])),
             seq(|run|, k requires 0 <= k < |run| => Outcomes(run[k])))
  }

  // ------------------------------------------------------------------ one step

  lemma OpsInHelpEnqueue(h: Heap, u: nat, l: Local)
    ensures InHelpEnqueue(l.pc) ==> StepHelpEnqueue(h, u, l).0.ops == h.ops && !Over(StepHelpEnqueue(h, u, l).1)
  {
    hide Contents;
  }

  lemma OpsInFinishEnqueue(h: Heap, u: nat, l: Local)
    ensures InFinishEnqueue(l.pc) ==> StepFinishEnqueue(h, u, l).0.ops == h.ops
  {
  }

  lemma OpsInHelpDequeue(h: Heap, u: nat, l: Local)
    ensures InHelpDequeue(l.pc) ==> StepHelpDequeue(h, u, l).0.ops == h.ops && !Over(StepHelpDequeue(h, u, l).1)
  {
    hide Contents;
  }

  lemma OpsInFinishDequeue(h: Heap, u: nat, l: Local)
    ensures InFinishDequeue(l.pc) ==> StepFinishDequeue(h, u, l).0.ops == h.ops
  {
  }

  /** Only publication starts the next operation, and ends what was over. */
  lemma OpsStep(s: State, u: nat, c: Choice)
    requires u < |s.locals| == |s.heap.slots| && Sizes(s.heap)
    ensures var l, s' := s.locals[u], Step(s, u, c);
            s'.heap.ops == if l.pc.Publish? then s.heap.ops[u := s.heap.ops[u] + 1] else s.heap.ops
    ensures var l, l' := s.locals[u], Step(s, u, c).locals[u];
            Over(l) && !l.pc.Publish? ==> Over(l') && !l'.pc.Return?
  {
    hide Contents, StepHelpEnqueue, StepFinishEnqueue, StepHelpDequeue, StepFinishDequeue;
    var l := s.locals[u];
    OpsInHelpEnqueue(s.heap, u, l);
    OpsInFinishEnqueue(s.heap, u, l);
    OpsInHelpDequeue(s.heap, u, l);
    OpsInFinishDequeue(s.heap, u, l);
  }

  /** An operation that is over stays so, and has one result. */
  lemma OverStep(s: State, u: nat, c: Choice, t: nat)
    requires u < |s.locals| == |s.heap.slots| && Sizes(s.heap) && t < |s.locals|
    ensures var s' := Step(s, u, c);
            var l, l' := s.locals[t], s'.locals[t];
            && |s'.heap.ops| == |s.heap.ops| && s.heap.ops[t] <= s'.heap.ops[t]
            && (Outcome(s.heap, t, l).Some? ==> Over(l))
            && (Over(l) && s'.heap.ops[t] == s.heap.ops[t] ==>
                  && Over(l')
                  && (Outcome(s'.heap, t, l').None? || Outcome(s'.heap, t, l') == Outcome(s.heap, t, l)))
  {
    OpsStep(s, u, c);
    hide StepThread;
  }

  lemma RunSizes(run: seq<State>, k: nat)
    requires IsRun(run) && k < |run|
    ensures |run[k].locals| == |run[0].locals| == |run[k].heap.slots| && Sizes(run[k].heap)
  {
    hide Shape, Claims, ClaimOwner, Dangling, SlotOk, LogOk, LocalInv;
    RunInv(run, k);
  }

  lemma TraceStep(run: seq<State>, k: nat)
    requires IsRun(run) && k + 1 < |run|
    ensures StepFrom(TraceOf(run), k)
  {
    hide Contents, Step, Sizes, Over, Outcome;
    RunSizes(run, k);
    RunSizes(run, k + 1);
    LogGrows(run, k, k + 1);
    assert Next(run[k], run[k + 1]);
    var u: nat, c :| u < |run[k].locals| && run[k + 1] == Step(run[k], u, c);
    hide IsRun;
    var tr := TraceOf(run);
    SizesOf(run[k].heap);
    SizesOf(run[k + 1].heap);
    forall t: nat | t < |tr.ops[k]| ensures ThreadStep(tr, k, t) {
      OverStep(run[k], u, c, t);
    }
  }

  lemma SizesOf(h: Heap)
    requires Sizes(h)
    ensures |h.ops| == |h.slots|
  {
  }

  // ------------------------------------------------------------------ every instant

  lemma EventsSoFar(run: seq<State>, k: nat, t: nat)
    requires IsRun(run) && k < |run| && t < |run[k].heap.ops|
    ensures NoEvent(run[k].heap.log, t, run[k].heap.ops[t] + 1)
  {
    hide Shape, Claims, ClaimOwner, Dangling, SlotOk, LocalInv;
    RunInv(run, k);
  }

  lemma FalseInstant(run: seq<State>, k: nat, t: nat) returns (i: nat)
    requires IsRun(run) && k < |run| && t < |run[k].locals| && run[k].locals[t].pc.Return? && run[k].locals[t].kind.Deq?
    requires !run[k].locals[t].result.TrueValue?
    ensures t < |run[k].heap.ops| && NoEvent(run[k].heap.log, t, run[k].heap.ops[t])
    ensures i <= k && t < |run[i].heap.ops| && run[i].heap.ops[t] == run[k].heap.ops[t] && Contents(run[i].heap) == []
  {
    DequeueReturns(run, k, t);
    i :| i <= k && t < |run[i].heap.ops| && run[i].heap.ops[t] == run[k].heap.ops[t] && Contents(run[i].heap) == [];
  }

  lemma TraceInstant(run: seq<State>, k: nat)
    requires IsRun(run) && k < |run|
    ensures InstantOk(TraceOf(run), true, k)
  {
    hide IsRun, Contents;
    RunSizes(run, 0);
    RunSizes(run, k);
    var tr := TraceOf(run);
    Linearizable(run, k);
    forall t: nat | t < |tr.ops[k]| ensures NoEvent(tr.logs[k], t, tr.ops[k][t] + 1) {
      EventsSoFar(run, k, t);
    }
    forall t: nat, e | t < |tr.ops[k]| && Returns(tr, k, t, e) ensures ReturnOk(tr, k, t, e) {
      if e.Missed? {
        var i := FalseInstant(run, k, t);
        assert CurrentAndEmpty(tr, i, t, e.op);
      } else if e.Added? {
        EnqueueReturns(run, k, t);
      } else {
        DequeueReturns(run, k, t);
      }
    }
  }

  lemma RunIsTrace(run: seq<State>)
    requires IsRun(run)
    ensures IsTrace(TraceOf(run), true)
  {
    var tr := TraceOf(run);
    forall k: nat | k < |tr.logs| ensures InstantOk(tr, true, k) {
      TraceInstant(run, k);
    }
    hide InstantOk;
    forall k: nat ensures StepFrom(tr, k) {
      if k + 1 < |run| { TraceStep(run, k); }
    }
  }

  /** All operations of a run, those that return false included, are in one history that is legal for a FIFO
      queue and never revised; each takes effect between its publication and its return, with the result it
      returns, whoever carries it out. */
  lemma AllOperations(run: seq<State>) returns (hs: seq<seq<Event>>)
    requires IsRun(run)
    ensures IsHistory(TraceOf(run), true, hs)
  {
    RunIsTrace(run);
    hs := Complete(TraceOf(run), true);
  }
}
