/** From a log of the operations that changed a container to a history of all operations: those that found
    the container empty are inserted at an instant at which it was. */
module Linearization {
  import opened Basics
  import opened Histories

  /** What the instants of a run show: the log and the contents it leads to; and of each thread the number
      of its latest operation, whether that is over, and what it has done if it is about to return. */
  datatype Instants = Instants(logs: seq<seq<Event>>, contents: seq<seq<int>>, ops: seq<seq<nat>>, over: seq<seq<bool>>,
                               returned: seq<seq<Option<Event>>>)

  type Trace = i: Instants | 0 < |i.logs| == |i.contents| == |i.ops| == |i.over| == |i.returned|
    witness Instants([[]], [[]], [[]], [[]], [[]])

  function Replay(fifo: bool, log: seq<Event>): Option<seq<int>> {
    if fifo then ReplayQueue(log) else ReplayStack(log)
  }

  ghost predicate Returns(tr: Trace, k: nat, t: nat, e: Event) {
    k < |tr.logs| && t < |tr.returned[k]| && tr.returned[k][t] == Some(e)
  }

  /** Operation `o` of thread `t` is current while the container is empty. */
  ghost predicate CurrentAndEmpty(tr: Trace, i: nat, t: nat, o: nat) {
    i < |tr.logs| && t < |tr.ops[i]| && tr.ops[i][t] == o && tr.contents[i] == []
  }

  /** The log says what the operations that returned a value have done; one that returned false has done
      nothing, and met the empty container. */
  ghost predicate ReturnOk(tr: Trace, k: nat, t: nat, e: Event)
    requires k < |tr.logs| && t < |tr.ops[k]|
  {
    && e.tid == t && e.op == tr.ops[k][t]
    && if e.Missed? then NoEvent(tr.logs[k], t, e.op) && exists i: nat :: i <= k && CurrentAndEmpty(tr, i, t, e.op)
       else OneEvent(tr.logs[k], e)
  }

  ghost predicate InstantOk(tr: Trace, fifo: bool, k: nat)
    requires k < |tr.logs|
  {
    && |tr.ops[k]| == |tr.returned[k]| == |tr.ops[0]|
    && Replay(fifo, tr.logs[k]) == Some(tr.contents[k])
    && (forall t: nat {:trigger tr.ops[k][t]} :: t < |tr.ops[k]| ==> NoEvent(tr.logs[k], t, tr.ops[k][t] + 1))
    && forall t: nat, e {:trigger Returns(tr, k, t, e)} :: t < |tr.ops[k]| && Returns(tr, k, t, e) ==> ReturnOk(tr, k, t, e)
  }

  /** From one instant to the next the log grows, the number of an operation does too, and an operation that
      is over does not come back with another result. */
  ghost predicate StepFrom(tr: Trace, k: nat) {
    k + 1 < |tr.logs| ==>
      && tr.logs[k] <= tr.logs[k + 1]
      && |tr.ops[k]| == |tr.over[k]| == |tr.returned[k]| == |tr.ops[k + 1]| == |tr.over[k + 1]| == |tr.returned[k + 1]|
      && forall t: nat {:trigger ThreadStep(tr, k, t)} :: t < |tr.ops[k]| ==> ThreadStep(tr, k, t)
  }

  ghost predicate ThreadStep(tr: Trace, k: nat, t: nat)
    requires k + 1 < |tr.logs| && t < |tr.ops[k]|
    requires |tr.ops[k]| == |tr.over[k]| == |tr.returned[k]| == |tr.ops[k + 1]| == |tr.over[k + 1]| == |tr.returned[k + 1]|
  {
    && tr.ops[k][t] <= tr.ops[k + 1][t]
    && (tr.returned[k][t].Some? ==> tr.over[k][t])
    && (tr.over[k][t] && tr.ops[k + 1][t] == tr.ops[k][t] ==>
          tr.over[k + 1][t] && (tr.returned[k + 1][t].None? || tr.returned[k + 1][t] == tr.returned[k][t]))
  }

  ghost predicate IsTrace(tr: Trace, fifo: bool) {
    && (forall k: nat {:trigger InstantOk(tr, fifo, k)} :: k < |tr.logs| ==> InstantOk(tr, fifo, k))
    && forall k: nat {:trigger StepFrom(tr, k)} :: StepFrom(tr, k)
  }

  lemma {:induction false} InstantSteps(tr: Trace, fifo: bool, j: nat, k: nat)
    requires IsTrace(tr, fifo) && j <= k < |tr.logs|
    ensures tr.logs[j] <= tr.logs[k] && |tr.ops[j]| == |tr.ops[k]|
    ensures forall t {:trigger tr.ops[k][t]} :: 0 <= t < |tr.ops[j]| ==> tr.ops[j][t] <= tr.ops[k][t]
    decreases k - j
  {
    assert InstantOk(tr, fifo, j) && InstantOk(tr, fifo, k);
    if j < k {
      InstantSteps(tr, fifo, j, k - 1);
      assert StepFrom(tr, k - 1);
      forall t: nat | t < |tr.ops[j]| ensures tr.ops[j][t] <= tr.ops[k][t] {
        assert ThreadStep(tr, k - 1, t);
      }
    }
  }

  lemma {:induction false} OverStays(tr: Trace, fifo: bool, j: nat, k: nat, t: nat)
    requires IsTrace(tr, fifo) && j <= k < |tr.logs| && t < |tr.ops[j]| == |tr.ops[k]| && tr.ops[j][t] == tr.ops[k][t]
    requires t < |tr.over[j]| && t < |tr.returned[j]| && tr.over[j][t]
    ensures t < |tr.over[k]| && t < |tr.returned[k]| && tr.over[k][t]
    ensures tr.returned[k][t].None? || tr.returned[k][t] == tr.returned[j][t]
    decreases k - j
  {
    if j < k {
      InstantSteps(tr, fifo, j, k - 1);
      assert StepFrom(tr, k - 1) && ThreadStep(tr, k - 1, t);
      OverStays(tr, fifo, j, k - 1, t);
    }
  }

  /** An operation has one result. */
  lemma OneResult(tr: Trace, fifo: bool, j: nat, k: nat, t: nat, e: Event, e': Event)
    requires IsTrace(tr, fifo) && Returns(tr, j, t, e) && Returns(tr, k, t, e') && e.op == e'.op
    ensures e == e'
  {
    assert InstantOk(tr, fifo, j) && InstantOk(tr, fifo, k);
    assert ReturnOk(tr, j, t, e) && ReturnOk(tr, k, t, e');
    if j < k {
      assert StepFrom(tr, j) && ThreadStep(tr, j, t);
      OverStays(tr, fifo, j, k, t);
    } else if k < j {
      assert StepFrom(tr, k) && ThreadStep(tr, k, t);
      OverStays(tr, fifo, k, j, t);
    }
  }

  /** The histories of all operations, one for each instant: what has happened is never revised; each is
      a legal history that ends in the present contents; no operation is in it before it is current, and
      when it returns it is in it exactly once, with the result it returns. */
  ghost predicate IsHistory(tr: Trace, fifo: bool, hs: seq<seq<Event>>) {
    && |hs| == |tr.logs|
    && (forall j, k {:trigger hs[j], hs[k]} :: 0 <= j <= k < |hs| ==> hs[j] <= hs[k])
    && (forall k {:trigger hs[k]} :: 0 <= k < |hs| ==> Replay(fifo, hs[k]) == Some(tr.contents[k]))
    && (forall k, t {:trigger hs[k], tr.ops[k][t]} :: 0 <= k < |hs| && 0 <= t < |tr.ops[k]| ==>
          NoEvent(hs[k], t, tr.ops[k][t] + 1))
    && forall k: nat, t: nat, e {:trigger hs[k], Returns(tr, k, t, e)} :: k < |hs| && Returns(tr, k, t, e) ==> OneEvent(hs[k], e)
  }

  // ------------------------------------------------------------------ when an operation found nothing

  ghost predicate MissesIn(tr: Trace, t: nat, o: nat, i: nat) {
    && CurrentAndEmpty(tr, i, t, o)
    && (exists k: nat :: Returns(tr, k, t, Missed(t, o)))
    && forall k: nat {:trigger Returns(tr, k, t, Missed(t, o))} :: Returns(tr, k, t, Missed(t, o)) ==> i <= k
  }

  /** The instant at which an operation that returns false is inserted. */
  ghost function MissInstant(tr: Trace, t: nat, o: nat): (r: Option<nat>)
    ensures match r
            case Some(i) => MissesIn(tr, t, o, i)
            case None => forall i: nat :: !MissesIn(tr, t, o, i)
  {
    if i: nat :| MissesIn(tr, t, o, i) then Some(i) else None
  }

  /** Until the first return there is an instant. */
  lemma {:induction false} MissExists(tr: Trace, fifo: bool, t: nat, o: nat, k: nat)
    requires IsTrace(tr, fifo) && Returns(tr, k, t, Missed(t, o))
    ensures MissInstant(tr, t, o).Some? && MissInstant(tr, t, o).value <= k
    decreases k
  {
    if j: nat :| j < k && Returns(tr, j, t, Missed(t, o)) {
      MissExists(tr, fifo, t, o, j);
    } else {
      assert InstantOk(tr, fifo, k);
      assert ReturnOk(tr, k, t, Missed(t, o));
      var i: nat :| i <= k && CurrentAndEmpty(tr, i, t, o);
      assert MissesIn(tr, t, o, i);
    }
  }

  /** The current operation of thread `n`, if it is inserted at instant `k`. */
  ghost function MissOf(tr: Trace, k: nat, n: nat): seq<Event>
    requires k < |tr.logs| && n < |tr.ops[k]|
  {
    if MissInstant(tr, n, tr.ops[k][n]) == Some(k) then [Missed(n, tr.ops[k][n])] else []
  }

  /** The operations of the first `n` threads that are inserted at instant `k`. */
  ghost function MissesAt(tr: Trace, k: nat, n: nat): seq<Event>
    requires k < |tr.logs| && n <= |tr.ops[k]|
    decreases n
  {
    if n == 0 then [] else
      MissesAt(tr, k, n - 1) + MissOf(tr, k, n - 1)
  }

  /** All operations up to instant `k`. */
  ghost function History(tr: Trace, k: nat): seq<Event>
    requires k < |tr.logs|
    decreases k
  {
    (if k == 0 then tr.logs[0] else History(tr, k - 1) + NewEvents(tr, k)) + MissesAt(tr, k, |tr.ops[k]|)
  }

  ghost function NewEvents(tr: Trace, k: nat): seq<Event>
    requires 0 < k < |tr.logs|
  {
    if |tr.logs[k - 1]| <= |tr.logs[k]| then tr.logs[k][|tr.logs[k - 1]|..] else []
  }

  lemma SplitLog(tr: Trace, fifo: bool, k: nat)
    requires IsTrace(tr, fifo) && 0 < k < |tr.logs|
    ensures tr.logs[k] == tr.logs[k - 1] + NewEvents(tr, k)
  {
    InstantSteps(tr, fifo, k - 1, k);
  }

  lemma HistoryAfter(tr: Trace, k: nat)
    requires k < |tr.logs|
    ensures k == 0 ==> History(tr, k) == tr.logs[k] + MissesAt(tr, k, |tr.ops[k]|)
    ensures k > 0 ==> History(tr, k) == History(tr, k - 1) + NewEvents(tr, k) + MissesAt(tr, k, |tr.ops[k]|)
  {
    hide MissesAt, NewEvents;
  }

  lemma MissesAfter(tr: Trace, k: nat, n: nat)
    requires k < |tr.logs| && n <= |tr.ops[k]|
    ensures MissesAt(tr, k, n) == if n == 0 then [] else MissesAt(tr, k, n - 1) + MissOf(tr, k, n - 1)
  {
    hide MissOf;
  }

  // ------------------------------------------------------------------ the history is legal

  lemma {:induction false} SameContinuation(fifo: bool, a: seq<Event>, a': seq<Event>, b: seq<Event>)
    requires Replay(fifo, a) == Replay(fifo, a')
    ensures Replay(fifo, a + b) == Replay(fifo, a' + b)
  {
    if b == [] {
      assert a + b == a && a' + b == a';
    } else {
      var rest, e := b[..|b| - 1], b[|b| - 1];
      SameContinuation(fifo, a, a', rest);
      assert a + b == (a + rest) + [e] && a' + b == (a' + rest) + [e];
      QueueAppend(a + rest, e);
      QueueAppend(a' + rest, e);
      StackAppend(a + rest, e);
      StackAppend(a' + rest, e);
    }
  }

  lemma AppendMiss(fifo: bool, log: seq<Event>, t: nat, o: nat)
    requires Replay(fifo, log) == Some([])
    ensures Replay(fifo, log + [Missed(t, o)]) == Some([])
  {
    QueueAppend(log, Missed(t, o));
    StackAppend(log, Missed(t, o));
  }

  /** Misses are inserted only where the container is empty. */
  lemma {:induction false} MissesAreLegal(tr: Trace, fifo: bool, k: nat, n: nat, a: seq<Event>)
    requires k < |tr.logs| && n <= |tr.ops[k]| && Replay(fifo, a) == Some(tr.contents[k])
    ensures Replay(fifo, a + MissesAt(tr, k, n)) == Some(tr.contents[k])
    decreases n
  {
    hide Replay;
    if n == 0 {
      assert a + MissesAt(tr, k, n) == a;
    } else {
      var o := tr.ops[k][n - 1];
      var before := MissesAt(tr, k, n - 1);
      MissesAreLegal(tr, fifo, k, n - 1, a);
      if MissInstant(tr, n - 1, o) == Some(k) {
        AppendMiss(fifo, a + before, n - 1, o);
        assert a + (before + [Missed(n - 1, o)]) == a + before + [Missed(n - 1, o)];
      } else {
        assert before + [] == before;
      }
    }
  }

  ghost predicate Legal(tr: Trace, fifo: bool, k: nat)
    requires k < |tr.logs|
  {
    Replay(fifo, History(tr, k)) == Some(tr.contents[k])
  }

  lemma LegalAtStart(tr: Trace, fifo: bool)
    requires IsTrace(tr, fifo)
    ensures Legal(tr, fifo, 0)
  {
    assert InstantOk(tr, fifo, 0);
    HistoryAfter(tr, 0);
    hide MissesAt, Replay, History, IsTrace;
    MissesAreLegal(tr, fifo, 0, |tr.ops[0]|, tr.logs[0]);
  }

  lemma LegalAfter(tr: Trace, fifo: bool, k: nat)
    requires IsTrace(tr, fifo) && 0 < k < |tr.logs| && Legal(tr, fifo, k - 1)
    ensures Legal(tr, fifo, k)
  {
    assert InstantOk(tr, fifo, k - 1) && InstantOk(tr, fifo, k);
    hide MissesAt, NewEvents, Replay, History, IsTrace;
    SplitLog(tr, fifo, k);
    HistoryAfter(tr, k);
    SameContinuation(fifo, History(tr, k - 1), tr.logs[k - 1], NewEvents(tr, k));
    MissesAreLegal(tr, fifo, k, |tr.ops[k]|, History(tr, k - 1) + NewEvents(tr, k));
  }

  lemma {:induction false} HistoryIsLegal(tr: Trace, fifo: bool, k: nat)
    requires IsTrace(tr, fifo) && k < |tr.logs|
    ensures Legal(tr, fifo, k)
    decreases k
  {
    hide *;
    if k == 0 {
      LegalAtStart(tr, fifo);
    } else {
      HistoryIsLegal(tr, fifo, k - 1);
      LegalAfter(tr, fifo, k);
    }
  }

  lemma {:induction false} HistoryGrows(tr: Trace, j: nat, k: nat)
    requires j <= k < |tr.logs|
    ensures History(tr, j) <= History(tr, k)
    decreases k
  {
    hide *;
    if j < k {
      HistoryAfter(tr, k);
      HistoryGrows(tr, j, k - 1);
      PrefixOf(History(tr, j), History(tr, k - 1), NewEvents(tr, k), MissesAt(tr, k, |tr.ops[k]|));
    }
  }

  lemma PrefixOf(a: seq<Event>, b: seq<Event>, c: seq<Event>, d: seq<Event>)
    requires a <= b
    ensures a <= b + c + d
  {
  }

  // ------------------------------------------------------------------ each operation once

  /** How many events operation `o` of thread `t` has. */
  function Count(log: seq<Event>, t: nat, o: nat): nat {
    if log == [] then 0 else
      Count(log[..|log| - 1], t, o) + if log[|log| - 1].tid == t && log[|log| - 1].op == o then 1 else 0
  }

  lemma {:induction false} CountConcat(a: seq<Event>, b: seq<Event>, t: nat, o: nat)
    ensures Count(a + b, t, o) == Count(a, t, o) + Count(b, t, o)
  {
    if b == [] {
      assert a + b == a;
    } else {
      CountConcat(a, b[..|b| - 1], t, o);
      assert (a + b)[..|a + b| - 1] == a + b[..|b| - 1];
    }
  }

  lemma {:induction false} CountNone(log: seq<Event>, t: nat, o: nat)
    ensures Count(log, t, o) == 0 <==> forall i {:trigger log[i]} :: 0 <= i < |log| && log[i].tid == t ==> log[i].op != o
  {
    if log != [] {
      CountNone(log[..|log| - 1], t, o);
      assert forall i {:trigger log[i]} :: 0 <= i < |log| - 1 ==> log[i] == log[..|log| - 1][i];
    }
  }

  lemma CountSplit(log: seq<Event>, t: nat, o: nat, j: nat)
    requires j < |log| && log[j].tid == t && log[j].op == o
    ensures Count(log, t, o) == Count(log[..j], t, o) + 1 + Count(log[j + 1..], t, o)
  {
    assert log == log[..j + 1] + log[j + 1..];
    CountConcat(log[..j + 1], log[j + 1..], t, o);
    assert log[..j + 1][..j] == log[..j];
  }

  lemma CountOne(log: seq<Event>, e: Event)
    requires NoEvent(log, e.tid, e.op + 1) && e in log
    ensures Count(log, e.tid, e.op) == 1 <==> OneEvent(log, e)
  {
    if OneEvent(log, e) {
      var j :| 0 <= j < |log| && log[j] == e
               && forall i {:trigger log[i]} :: 0 <= i < |log| && i != j && log[i].tid == e.tid ==> log[i].op != e.op;
      CountSplit(log, e.tid, e.op, j);
      CountNone(log[..j], e.tid, e.op);
      CountNone(log[j + 1..], e.tid, e.op);
    }
    if Count(log, e.tid, e.op) == 1 {
      var j :| 0 <= j < |log| && log[j] == e;
      CountSplit(log, e.tid, e.op, j);
      CountNone(log[..j], e.tid, e.op);
      CountNone(log[j + 1..], e.tid, e.op);
      forall i | 0 <= i < |log| && i != j && log[i].tid == e.tid ensures log[i].op != e.op {
        if i < j { assert log[..j][i] == log[i]; } else { assert log[j + 1..][i - j - 1] == log[i]; }
      }
    }
  }

  lemma CountMissOf(tr: Trace, k: nat, n: nat, t: nat, o: nat)
    requires k < |tr.logs| && n < |tr.ops[k]|
    ensures Count(MissOf(tr, k, n), t, o) == if t == n && MissInstant(tr, t, o) == Some(k) then 1 else 0
  {
    if MissOf(tr, k, n) != [] {
      assert MissOf(tr, k, n)[..0] == [];
    }
  }

  ghost predicate CountedAt(tr: Trace, k: nat, n: nat, t: nat, o: nat)
    requires k < |tr.logs| && n <= |tr.ops[k]|
  {
    Count(MissesAt(tr, k, n), t, o) == if t < n && MissInstant(tr, t, o) == Some(k) then 1 else 0
  }

  lemma CountedAfter(tr: Trace, k: nat, n: nat, t: nat, o: nat)
    requires k < |tr.logs| && n < |tr.ops[k]| && CountedAt(tr, k, n, t, o)
    ensures CountedAt(tr, k, n + 1, t, o)
  {
    MissesAfter(tr, k, n + 1);
    CountMissOf(tr, k, n, t, o);
    hide Count, MissInstant, MissOf, MissesAt;
    CountConcat(MissesAt(tr, k, n), MissOf(tr, k, n), t, o);
  }

  lemma {:induction false} CountMisses(tr: Trace, k: nat, n: nat, t: nat, o: nat)
    requires k < |tr.logs| && n <= |tr.ops[k]|
    ensures CountedAt(tr, k, n, t, o)
    decreases n
  {
    if n > 0 {
      hide *;
      CountMisses(tr, k, n - 1, t, o);
      CountedAfter(tr, k, n - 1, t, o);
    }
  }

  lemma MissListedNow(tr: Trace, k: nat, n: nat)
    requires k < |tr.logs| && n < |tr.ops[k]| && MissInstant(tr, n, tr.ops[k][n]) == Some(k)
    ensures MissOf(tr, k, n) == [Missed(n, tr.ops[k][n])]
  {
    hide MissInstant;
  }

  lemma InEither(e: Event, a: seq<Event>, b: seq<Event>)
    ensures e in a || e in b ==> e in a + b
  {
  }

  lemma {:induction false} MissListed(tr: Trace, k: nat, n: nat, t: nat)
    requires k < |tr.logs| && t < n <= |tr.ops[k]| && MissInstant(tr, t, tr.ops[k][t]) == Some(k)
    ensures Missed(t, tr.ops[k][t]) in MissesAt(tr, k, n)
    decreases n
  {
    hide *;
    MissesAfter(tr, k, n);
    InEither(Missed(t, tr.ops[k][t]), MissesAt(tr, k, n - 1), MissOf(tr, k, n - 1));
    if t == n - 1 {
      MissListedNow(tr, k, t);
    } else {
      MissListed(tr, k, n - 1, t);
    }
  }

  lemma CountThree(log: seq<Event>, before: seq<Event>, more: seq<Event>, misses: seq<Event>, t: nat, o: nat)
    ensures Count(log + more, t, o) == Count(log, t, o) + Count(more, t, o)
    ensures Count(before + more + misses, t, o) == Count(before, t, o) + Count(more, t, o) + Count(misses, t, o)
  {
    CountConcat(log, more, t, o);
    CountConcat(before, more, t, o);
    CountConcat(before + more, misses, t, o);
  }

  lemma CountAfter(tr: Trace, fifo: bool, k: nat, t: nat, o: nat)
    requires IsTrace(tr, fifo) && 0 < k < |tr.logs| && t < |tr.ops[0]|
    ensures Count(History(tr, k), t, o) - Count(History(tr, k - 1), t, o) ==
            Count(tr.logs[k], t, o) - Count(tr.logs[k - 1], t, o) + if MissInstant(tr, t, o) == Some(k) then 1 else 0
  {
    assert InstantOk(tr, fifo, k);
    hide History, NewEvents, MissesAt, MissInstant, Count, IsTrace, InstantOk;
    HistoryAfter(tr, k);
    SplitLog(tr, fifo, k);
    CountMisses(tr, k, |tr.ops[k]|, t, o);
    CountThree(tr.logs[k - 1], History(tr, k - 1), NewEvents(tr, k), MissesAt(tr, k, |tr.ops[k]|), t, o);
  }

  lemma CountAtStart(tr: Trace, t: nat, o: nat)
    requires t < |tr.ops[0]|
    ensures Count(History(tr, 0), t, o) == Count(tr.logs[0], t, o) + if MissInstant(tr, t, o) == Some(0) then 1 else 0
  {
    hide History, MissesAt, MissInstant, Count;
    HistoryAfter(tr, 0);
    CountMisses(tr, 0, |tr.ops[0]|, t, o);
    CountConcat(tr.logs[0], MissesAt(tr, 0, |tr.ops[0]|), t, o);
  }

  /** The history has each miss once, beside the events of the log. */
  lemma {:induction false} CountHistory(tr: Trace, fifo: bool, k: nat, t: nat, o: nat)
    requires IsTrace(tr, fifo) && k < |tr.logs| && t < |tr.ops[0]|
    ensures var m := MissInstant(tr, t, o);
            Count(History(tr, k), t, o) == Count(tr.logs[k], t, o) + (if m.Some? && m.value <= k then 1 else 0)
    decreases k
  {
    hide *;
    if k == 0 {
      CountAtStart(tr, t, o);
    } else {
      CountAfter(tr, fifo, k, t, o);
      CountHistory(tr, fifo, k - 1, t, o);
    }
  }

  lemma {:induction false} LogInHistory(tr: Trace, fifo: bool, k: nat, e: Event)
    requires IsTrace(tr, fifo) && k < |tr.logs| && e in tr.logs[k]
    ensures e in History(tr, k)
    decreases k
  {
    hide MissesAt, NewEvents, InstantOk;
    if k > 0 {
      SplitLog(tr, fifo, k);
      if e in tr.logs[k - 1] {
        LogInHistory(tr, fifo, k - 1, e);
      }
    }
  }

  lemma MissInHistory(tr: Trace, fifo: bool, k: nat, t: nat, o: nat)
    requires IsTrace(tr, fifo) && k < |tr.logs| && t < |tr.ops[0]|
    requires MissInstant(tr, t, o).Some? && MissInstant(tr, t, o).value <= k
    ensures Missed(t, o) in History(tr, k)
  {
    var i := MissInstant(tr, t, o).value;
    assert InstantOk(tr, fifo, i);
    hide InstantOk, IsTrace, MissInstant, MissesAt;
    MissListed(tr, i, |tr.ops[i]|, t);
    HistoryGrows(tr, i, k);
    assert forall e :: e in MissesAt(tr, i, |tr.ops[i]|) ==> e in History(tr, i);
    assert forall e :: e in History(tr, i) ==> e in History(tr, k);
  }

  /** No operation is in the history before it is current. */
  lemma {:induction false} NotBeforeCurrent(tr: Trace, fifo: bool, k: nat, t: nat)
    requires IsTrace(tr, fifo) && k < |tr.logs| && t < |tr.ops[k]|
    ensures NoEvent(History(tr, k), t, tr.ops[k][t] + 1)
  {
    var h := History(tr, k);
    forall j | 0 <= j < |h| && h[j].tid == t ensures h[j].op < tr.ops[k][t] + 1 {
      var o := h[j].op;
      assert InstantOk(tr, fifo, k);
      CountHistory(tr, fifo, k, t, o);
      CountNone(h, t, o);
      CountNone(tr.logs[k], t, o);
      var m := MissInstant(tr, t, o);
      if m.Some? && m.value <= k {
        InstantSteps(tr, fifo, m.value, k);
      }
    }
  }

  /** When an operation returns it is in the history exactly once. */
  lemma OnceOnReturn(tr: Trace, fifo: bool, k: nat, t: nat, e: Event)
    requires IsTrace(tr, fifo) && Returns(tr, k, t, e)
    ensures OneEvent(History(tr, k), e)
  {
    assert InstantOk(tr, fifo, k);
    assert ReturnOk(tr, k, t, e);
    NotBeforeCurrent(tr, fifo, k, t);
    CountHistory(tr, fifo, k, t, e.op);
    if e.Missed? {
      MissExists(tr, fifo, t, e.op, k);
      MissInHistory(tr, fifo, k, t, e.op);
      CountNone(tr.logs[k], t, e.op);
    } else {
      CountOne(tr.logs[k], e);
      LogInHistory(tr, fifo, k, e);
      forall j: nat ensures !Returns(tr, j, t, Missed(t, e.op)) {
        if Returns(tr, j, t, Missed(t, e.op)) { OneResult(tr, fifo, j, k, t, Missed(t, e.op), e); }
      }
    }
    CountOne(History(tr, k), e);
  }

  /** Every trace has histories of all operations. */
  lemma Complete(tr: Trace, fifo: bool) returns (hs: seq<seq<Event>>)
    requires IsTrace(tr, fifo)
    ensures IsHistory(tr, fifo, hs)
  {
    hs := seq(|tr.logs|, k requires 0 <= k < |tr.logs| => History(tr, k));
    forall j, k | 0 <= j <= k < |hs| ensures hs[j] <= hs[k] {
      HistoryGrows(tr, j, k);
    }
    forall k | 0 <= k < |hs| ensures Replay(fifo, hs[k]) == Some(tr.contents[k]) {
      HistoryIsLegal(tr, fifo, k);
    }
    forall k, t | 0 <= k < |hs| && 0 <= t < |tr.ops[k]| ensures NoEvent(hs[k], t, tr.ops[k][t] + 1) {
      NotBeforeCurrent(tr, fifo, k, t);
    }
    forall k: nat, t: nat, e | k < |hs| && Returns(tr, k, t, e) ensures OneEvent(hs[k], e) {
      OnceOnReturn(tr, fifo, k, t, e);
    }
  }
}
