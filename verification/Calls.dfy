/** What a thread has done to a container in one call: the events of the thread since the call began. */
module Calls {
  import opened Histories

  /** The events of thread `t`. */
  function Mine(log: seq<Event>, t: nat): seq<Event> {
    if log == [] then [] else
      Mine(log[..|log| - 1], t) + if log[|log| - 1].tid == t then [log[|log| - 1]] else []
  }

  lemma {:induction false} MineConcat(a: seq<Event>, b: seq<Event>, t: nat)
    ensures Mine(a + b, t) == Mine(a, t) + Mine(b, t)
    decreases |b|
  {
    if b == [] {
      assert a + b == a;
    } else {
      MineConcat(a, b[..|b| - 1], t);
      assert (a + b)[..|a + b| - 1] == a + b[..|b| - 1];
    }
  }

  lemma {:induction false} MineNone(log: seq<Event>, t: nat)
    ensures Mine(log, t) == [] <==> forall j {:trigger log[j]} :: 0 <= j < |log| ==> log[j].tid != t
    decreases |log|
  {
    if log != [] {
      MineNone(log[..|log| - 1], t);
      assert forall j {:trigger log[j]} :: 0 <= j < |log| - 1 ==> log[j] == log[..|log| - 1][j];
    }
  }

  /** The events of thread `t` in a log that had `n` events before. */
  function Since(log: seq<Event>, n: nat, t: nat): seq<Event> {
    if n <= |log| then Mine(log[n..], t) else []
  }

  lemma SinceNow(log: seq<Event>, t: nat)
    ensures Since(log, |log|, t) == []
  {
  }

  lemma SinceEarlier(log: seq<Event>, log': seq<Event>, n: nat, t: nat)
    requires n <= |log| && log <= log'
    ensures Since(log', n, t) == Since(log, n, t) + Since(log', |log|, t)
  {
    assert log'[n..] == log[n..] + log'[|log|..];
    MineConcat(log[n..], log'[|log|..], t);
  }

  lemma SinceOthers(log: seq<Event>, log': seq<Event>, t: nat)
    requires GrownByOthers(log, log', t)
    ensures Since(log', |log|, t) == []
  {
    MineNone(log'[|log|..], t);
  }

  lemma SinceAppended(log: seq<Event>, e: Event, t: nat)
    ensures Since(log + [e], |log|, t) == if e.tid == t then [e] else []
  {
    assert (log + [e])[|log|..] == [e];
    assert Mine([e][..0], t) == [];
  }

  lemma {:induction false} MineAll(log: seq<Event>, t: nat)
    requires forall j {:trigger log[j]} :: 0 <= j < |log| ==> log[j].tid == t
    ensures Mine(log, t) == log
    decreases |log|
  {
    if log != [] {
      MineAll(log[..|log| - 1], t);
    }
  }

  // ------------------------------------------------------------------ one thread

  /** What an instant shows of one thread: whether it is idle, and if not, what its call has done so far, and
      the argument of the call. */
  datatype View = View(log: seq<Event>, idle: bool, effect: seq<Event>, adds: bool, item: int)

  /** From one instant to the next: outside its calls thread `t` does nothing; in a call it does what the view
      says, and the argument stays the same. */
  ghost predicate Through(v: View, v': View, t: nat) {
    && v.log <= v'.log
    && (if v'.idle then Since(v'.log, |v.log|, t) == []
        else v'.effect == (if v.idle then [] else v.effect) + Since(v'.log, |v.log|, t))
    && (!v.idle && !v'.idle ==> v'.adds == v.adds && v'.item == v.item)
  }

  /** A step of thread `t` itself. */
  ghost predicate Acting(v: View, v': View, t: nat) {
    && v.log <= v'.log
    && (forall j {:trigger v'.log[j]} :: |v.log| <= j < |v'.log| ==> v'.log[j].tid == t)
    && (if v'.idle then v'.log == v.log else v'.effect == (if v.idle then [] else v.effect) + v'.log[|v.log|..])
    && (!v.idle && !v'.idle ==> v'.adds == v.adds && v'.item == v.item)
  }

  /** A step of another thread. */
  ghost predicate Watching(v: View, v': View, t: nat) {
    GrownByOthers(v.log, v'.log, t) && v' == v.(log := v'.log)
  }

  /** The step in which thread `t` does what it is there for. */
  lemma ActsOnce(v: View, v': View, t: nat, e: Event)
    requires v'.log == v.log + [e] && e.tid == t && !v.idle && !v'.idle && v.effect == [] && v'.effect == [e]
    requires v'.adds == v.adds && v'.item == v.item
    ensures Acting(v, v', t)
  {
    assert v'.log[|v.log|..] == [e];
  }

  /** A step in which it does nothing. */
  lemma ActsNot(v: View, v': View, t: nat)
    requires v'.log == v.log && (v'.idle || v'.effect == if v.idle then [] else v.effect)
    requires !v.idle && !v'.idle ==> v'.adds == v.adds && v'.item == v.item
    ensures Acting(v, v', t)
  {
    assert v'.log[|v.log|..] == [];
  }

  lemma EitherStep(v: View, v': View, t: nat)
    requires Acting(v, v', t) || Watching(v, v', t)
    ensures Through(v, v', t)
  {
    if Acting(v, v', t) {
      MineAll(v'.log[|v.log|..], t);
    } else {
      SinceOthers(v.log, v'.log, t);
    }
  }

  ghost predicate IsWatched(vs: seq<View>, t: nat) {
    forall j: nat {:trigger ThroughAt(vs, t, j)} :: ThroughAt(vs, t, j)
  }

  ghost predicate ThroughAt(vs: seq<View>, t: nat, j: nat) {
    j + 1 < |vs| ==> Through(vs[j], vs[j + 1], t)
  }

  /** Thread `t` is idle at instant `i`, and then in one call until instant `k`. */
  ghost predicate OneCall(vs: seq<View>, i: nat, k: nat) {
    i < k < |vs| && vs[i].idle && forall j {:trigger vs[j]} :: i < j <= k ==> !vs[j].idle
  }

  lemma {:induction false} InCall(vs: seq<View>, t: nat, i: nat, k: nat)
    requires IsWatched(vs, t) && OneCall(vs, i, k)
    ensures vs[i].log <= vs[k].log && Since(vs[k].log, |vs[i].log|, t) == vs[k].effect
    ensures vs[k].adds == vs[i + 1].adds && vs[k].item == vs[i + 1].item
    decreases k
  {
    hide Since;
    assert ThroughAt(vs, t, k - 1);
    if k == i + 1 {
      SinceNow(vs[i].log, t);
    } else {
      InCall(vs, t, i, k - 1);
      SinceEarlier(vs[k - 1].log, vs[k].log, |vs[i].log|, t);
    }
  }

  lemma {:induction false} BetweenCalls(vs: seq<View>, t: nat, i: nat, k: nat)
    requires IsWatched(vs, t) && i <= k < |vs| && forall j {:trigger vs[j]} :: i <= j <= k ==> vs[j].idle
    ensures vs[i].log <= vs[k].log && Since(vs[k].log, |vs[i].log|, t) == []
    decreases k
  {
    hide Since;
    if k == i {
      SinceNow(vs[i].log, t);
    } else {
      assert ThroughAt(vs, t, k - 1);
      BetweenCalls(vs, t, i, k - 1);
      SinceEarlier(vs[k - 1].log, vs[k].log, |vs[i].log|, t);
    }
  }

  /** An event of thread `t` that is new in the log is among those since. */
  lemma InSince(log: seq<Event>, n: nat, a: nat)
    requires n <= a < |log|
    ensures log[a] in Since(log, n, log[a].tid)
  {
    var rest := log[n..];
    assert rest == rest[..a - n] + [log[a]] + rest[a - n + 1..];
    MineConcat(rest[..a - n] + [log[a]], rest[a - n + 1..], log[a].tid);
    MineConcat(rest[..a - n], [log[a]], log[a].tid);
    assert Mine([log[a]], log[a].tid) == [log[a]] by { MineAll([log[a]], log[a].tid); }
  }

  lemma {:induction false} MineIn(log: seq<Event>, t: nat, e: Event)
    requires e in Mine(log, t)
    ensures e in log && e.tid == t
    decreases |log|
  {
    if e in Mine(log[..|log| - 1], t) {
      MineIn(log[..|log| - 1], t, e);
    }
  }

  lemma SinceIn(log: seq<Event>, n: nat, t: nat, e: Event)
    requires e in Since(log, n, t)
    ensures e in log && e.tid == t
  {
    MineIn(log[n..], t, e);
  }

  // ------------------------------------------------------------------ conservation

  function AddedValues(log: seq<Event>): multiset<int> {
    if log == [] then multiset{} else
      AddedValues(log[..|log| - 1]) + if log[|log| - 1].Added? then multiset{log[|log| - 1].value} else multiset{}
  }

  function RemovedValues(log: seq<Event>): multiset<int> {
    if log == [] then multiset{} else
      RemovedValues(log[..|log| - 1]) + if log[|log| - 1].Removed? then multiset{log[|log| - 1].value} else multiset{}
  }

  lemma {:induction false} ValuesMeans(log: seq<Event>, v: int)
    ensures v in AddedValues(log) <==> exists j :: 0 <= j < |log| && log[j].Added? && log[j].value == v
    ensures v in RemovedValues(log) <==> exists j :: 0 <= j < |log| && log[j].Removed? && log[j].value == v
    decreases |log|
  {
    if log != [] {
      var before := log[..|log| - 1];
      ValuesMeans(before, v);
      assert forall j :: 0 <= j < |log| - 1 ==> log[j] == before[j];
    }
  }

  lemma FirstOf(q: seq<int>)
    requires q != []
    ensures multiset(q) == multiset{q[0]} + multiset(q[1..])
  {
    assert q == [q[0]] + q[1..];
  }

  /** What has been added has been removed, or is still there. */
  lemma {:induction false} QueueConserves(log: seq<Event>)
    requires ReplayQueue(log).Some?
    ensures AddedValues(log) == RemovedValues(log) + multiset(ReplayQueue(log).value)
    decreases |log|
  {
    if log != [] {
      var before, e := log[..|log| - 1], log[|log| - 1];
      QueueConserves(before);
      var q := ReplayQueue(before).value;
      if e.Removed? { FirstOf(q); }
    }
  }

  lemma {:induction false} StackConserves(log: seq<Event>)
    requires ReplayStack(log).Some?
    ensures AddedValues(log) == RemovedValues(log) + multiset(ReplayStack(log).value)
    decreases |log|
  {
    if log != [] {
      var before, e := log[..|log| - 1], log[|log| - 1];
      StackConserves(before);
      var s := ReplayStack(before).value;
      if e.Removed? { FirstOf(s); }
    }
  }
}
