/** The stuttering clock: one counter per thread, scanned without any lock. One step of a thread is one
    read or write of one clock, or the write of the result. `seen`, `floor` and `op` are history. */
module StutteringClock {
  /** `seen` is the largest time any finished operation has delivered. */
  datatype Heap = Heap(clocks: seq<nat>, seen: nat)

  datatype PC = Idle | ScanClock | StoreClock | StoreResult | Return

  /** `set` is whether the operation is set_timestamp rather than read_time; `floor` is what had been seen
      when it started. */
  datatype Local = Local(pc: PC, setting: bool, i: nat, latest: nat, result: nat, op: nat, floor: nat)

  datatype State = State(heap: Heap, locals: seq<Local>)

  function Max(x: nat, y: nat): (r: nat)
    ensures r >= x && r >= y && (r == x || r == y)
  {
    if x > y then x else y
  }

  function Deliver(h: Heap, time: nat): Heap {
    h.(seen := Max(h.seen, time))
  }

  /** One step of thread `t`; an idle thread starts set_timestamp or read_time. */
  function StepThread(h: Heap, t: nat, l: Local, setting: bool): (Heap, Local) {
    match l.pc
    case Idle => (h, Local(ScanClock, setting, 0, 0, 0, l.op + 1, h.seen))
    case ScanClock =>
      if l.i < |h.clocks| then (h, l.(latest := Max(l.latest, h.clocks[l.i]), i := l.i + 1))
      else if l.setting then (h, l.(pc := StoreClock))
      else (Deliver(h, l.latest), l.(pc := Return, result := l.latest))
    case StoreClock =>
      (if t < |h.clocks| then h.(clocks := h.clocks[t := l.latest + 1]) else h, l.(pc := StoreResult))
    case StoreResult => (Deliver(h, l.latest + 1), l.(pc := Return, result := l.latest + 1))
    case Return => (h, l.(pc := Idle))
  }

  function Step(s: State, t: nat, setting: bool): State
    requires t < |s.locals|
  {
    var r := StepThread(s.heap, t, s.locals[t], setting);
    State(r.0, s.locals[t := r.1])
  }

  predicate Init(s: State) {
    && |s.locals| > 0
    && s.heap == Heap(seq(|s.locals|, i => 1), 0)
    && forall t :: 0 <= t < |s.locals| ==> s.locals[t].pc.Idle?
  }

  ghost predicate Next(s: State, s': State) {
    exists t: nat, setting :: t < |s.locals| && s' == Step(s, t, setting)
  }

  /** Any interleaving of any number of threads. */
  ghost predicate IsRun(run: seq<State>) {
    && |run| > 0
    && Init(run[0])
    && forall i :: 0 <= i < |run| - 1 ==> Next(run[i], run[i + 1])
  }

  // ------------------------------------------------------------------ the invariant

  /** Some clock from number `from` on shows at least `time`. */
  ghost predicate Shown(clocks: seq<nat>, from: nat, time: nat) {
    exists w :: from <= w < |clocks| && clocks[w] >= time
  }

  /** A scan has found what had been seen at its start, or will; the thread's own clock only goes forward. */
  ghost predicate LocalOk(h: Heap, t: nat, l: Local) {
    && t < |h.clocks| && (!l.pc.Idle? ==> l.floor <= h.seen)
    && match l.pc
       case Idle => true
       case ScanClock =>
         && l.i <= |h.clocks| && (l.floor <= l.latest || Shown(h.clocks, l.i, l.floor))
         && (l.i > t ==> l.latest >= h.clocks[t]) && (l.i > 0 ==> Shown(h.clocks, 0, l.latest)) && (l.i == 0 ==> l.latest == 0)
       case StoreClock => l.floor <= l.latest && l.latest >= h.clocks[t] && l.setting
       case StoreResult => l.floor <= l.latest && h.clocks[t] == l.latest + 1 && l.setting
       case Return => l.result <= h.seen && if l.setting then l.floor < l.result else l.floor <= l.result
  }

  ghost predicate Inv(s: State) {
    && |s.heap.clocks| == |s.locals| && Shown(s.heap.clocks, 0, s.heap.seen)
    && forall t {:trigger s.locals[t]} :: 0 <= t < |s.locals| ==> LocalOk(s.heap, t, s.locals[t])
  }

  /** Clocks go forward, and only the thread itself moves its own. */
  ghost predicate Rely(h: Heap, h': Heap, t: nat) {
    && |h'.clocks| == |h.clocks| && h.seen <= h'.seen
    && (forall i {:trigger h.clocks[i]} {:trigger h'.clocks[i]} :: 0 <= i < |h.clocks| ==> h.clocks[i] <= h'.clocks[i])
    && (t < |h.clocks| ==> h'.clocks[t] == h.clocks[t])
  }

  lemma StableShown(h: Heap, h': Heap, t: nat, from: nat, time: nat)
    requires Rely(h, h', t) && Shown(h.clocks, from, time)
    ensures Shown(h'.clocks, from, time)
  {
    var w :| from <= w < |h.clocks| && h.clocks[w] >= time;
    assert h'.clocks[w] >= time;
  }

  lemma Stable(h: Heap, h': Heap, t: nat, l: Local)
    requires Rely(h, h', t) && LocalOk(h, t, l)
    ensures LocalOk(h', t, l)
  {
    if l.pc.ScanClock? {
      if l.i > 0 { StableShown(h, h', t, 0, l.latest); }
      if l.floor > l.latest { StableShown(h, h', t, l.i, l.floor); }
    }
  }

  lemma StepKeeps(s: State, t: nat, setting: bool)
    requires Inv(s) && t < |s.locals|
    ensures var s' := Step(s, t, setting);
            && LocalOk(s'.heap, t, s'.locals[t]) && Shown(s'.heap.clocks, 0, s'.heap.seen)
            && forall u: nat {:trigger Rely(s.heap, s'.heap, u)} :: u != t ==> Rely(s.heap, s'.heap, u)
  {
    var h, l := s.heap, s.locals[t];
    var s' := Step(s, t, setting);
    var h' := s'.heap;
    assert LocalOk(h, t, l);
    if l.pc.ScanClock? && l.i < |h.clocks| {
      assert h.clocks[l.i] >= 0;
      if l.floor > l.latest {
        var w :| l.i <= w < |h.clocks| && h.clocks[w] >= l.floor;
        assert w == l.i || w >= l.i + 1;
      }
    } else if l.pc.StoreClock? {
      var w :| 0 <= w < |h.clocks| && h.clocks[w] >= h.seen;
      assert h'.clocks[w] >= h'.seen;
    } else if l.pc.StoreResult? {
      var w :| 0 <= w < |h.clocks| && h.clocks[w] >= h.seen;
      assert h'.clocks[t] >= l.latest + 1;
    }
  }

  lemma StepInv(s: State, t: nat, setting: bool)
    requires Inv(s) && t < |s.locals|
    ensures Inv(Step(s, t, setting)) && s.heap.seen <= Step(s, t, setting).heap.seen
  {
    hide LocalOk, Shown;
    var s' := Step(s, t, setting);
    StepKeeps(s, t, setting);
    forall u: nat | u < |s'.locals| ensures LocalOk(s'.heap, u, s'.locals[u]) {
      if u != t {
        assert Rely(s.heap, s'.heap, u);
        Stable(s.heap, s'.heap, u, s.locals[u]);
      }
    }
    assert Rely(s.heap, s'.heap, t + 1);
  }

  // ------------------------------------------------------------------ every run

  lemma StepAt(run: seq<State>, k: nat) returns (t: nat, setting: bool)
    requires IsRun(run) && 0 < k < |run|
    ensures t < |run[k - 1].locals| && run[k] == Step(run[k - 1], t, setting)
  {
    assert Next(run[k - 1], run[k - 1 + 1]);
    t, setting :| t < |run[k - 1].locals| && run[k] == Step(run[k - 1], t, setting);
  }

  lemma {:induction false} RunInv(run: seq<State>, k: nat)
    requires IsRun(run) && k < |run|
    ensures Inv(run[k]) && |run[k].locals| == |run[0].locals|
  {
    if k == 0 {
      assert run[0].heap.clocks[0] >= 0;
    } else {
      RunInv(run, k - 1);
      var t, setting := StepAt(run, k);
      StepInv(run[k - 1], t, setting);
    }
  }

  /** An operation that starts after instant `i` knows, as its floor, all that had been seen at `i`. */
  lemma {:induction false} FloorAfter(run: seq<State>, i: nat, k: nat, u: nat)
    requires IsRun(run) && i <= k < |run| && u < |run[i].locals|
    ensures |run[k].locals| == |run[i].locals| && run[i].heap.seen <= run[k].heap.seen
    ensures run[k].locals[u].op >= run[i].locals[u].op
    ensures run[k].locals[u].op > run[i].locals[u].op ==> run[k].locals[u].floor >= run[i].heap.seen
    decreases k - i
  {
    hide LocalOk, Shown;
    if i < k {
      FloorAfter(run, i, k - 1, u);
      RunInv(run, k - 1);
      var t, setting := StepAt(run, k);
      StepInv(run[k - 1], t, setting);
    }
  }

  /** If one operation has finished before another one starts: a timestamp that is set is greater than what
      the first one delivered, be it a timestamp or a time that was read; and a time that is read is at
      least what the first one delivered. */
  lemma TimestampsRespectRealTime(run: seq<State>, i: nat, k: nat, t: nat, u: nat)
    requires IsRun(run) && i <= k < |run| && t < |run[i].locals| && u < |run[i].locals| && u < |run[k].locals|
    requires run[i].locals[t].pc.Return? && run[k].locals[u].pc.Return?
    requires run[k].locals[u].op > run[i].locals[u].op
    ensures run[k].locals[u].setting ==> run[k].locals[u].result > run[i].locals[t].result
    ensures run[k].locals[u].result >= run[i].locals[t].result
  {
    RunInv(run, i);
    RunInv(run, k);
    FloorAfter(run, i, k, u);
  }

  // ------------------------------------------------------------------ every call

  /** Thread `t` starts an operation at instant `i`, and is still in it at instant `k`. */
  ghost predicate Call(run: seq<State>, i: nat, k: nat, t: nat, setting: bool) {
    && i < k < |run| && t < |run[i].locals| && run[i].locals[t].pc.Idle? && run[i + 1] == Step(run[i], t, setting)
    && forall j {:trigger run[j]} :: i < j <= k ==> t < |run[j].locals| && !run[j].locals[t].pc.Idle?
  }

  function Latest(times: seq<nat>): nat {
    if times == [] then 0 else Max(Latest(times[..|times| - 1]), times[|times| - 1])
  }

  /** Clock `w` was read at instant `js[w]`, one clock after the other. */
  ghost predicate ReadAt(run: seq<State>, i: nat, k: nat, js: seq<nat>) {
    && (forall w {:trigger js[w]} :: 0 <= w < |js| ==> i < js[w] < k < |run| && w < |run[js[w]].heap.clocks|)
    && forall v, w {:trigger js[v], js[w]} :: 0 <= v < w < |js| ==> js[v] < js[w]
  }

  ghost function Times(run: seq<State>, i: nat, k: nat, js: seq<nat>): seq<nat>
    requires ReadAt(run, i, k, js)
  {
    seq(|js|, w requires 0 <= w < |js| => run[js[w]].heap.clocks[w])
  }

  /** How far an operation has come that has read these times. */
  ghost predicate Progress(h: Heap, t: nat, l: Local, setting: bool, times: seq<nat>) {
    && l.setting == setting && t < |h.clocks|
    && match l.pc
       case Idle => false
       case ScanClock => l.i == |times| <= |h.clocks| && l.latest == Latest(times)
       case StoreClock => setting && |times| == |h.clocks| && l.latest == Latest(times)
       case StoreResult => setting && |times| == |h.clocks| && l.latest == Latest(times) && h.clocks[t] == Latest(times) + 1
       case Return =>
         && |times| == |h.clocks|
         && if setting then l.result == Latest(times) + 1 == h.clocks[t] else l.result == Latest(times)
  }

  lemma ProgressStep(h: Heap, t: nat, l: Local, setting: bool, times: seq<nat>, c: bool)
    requires Progress(h, t, l, setting, times) && !StepThread(h, t, l, c).1.pc.Idle?
    ensures var (h', l') := StepThread(h, t, l, c);
            Progress(h', t, l', setting, if l.pc.ScanClock? && l.i < |h.clocks| then times + [h.clocks[l.i]] else times)
  {
    if l.pc.ScanClock? && l.i < |h.clocks| {
      assert (times + [h.clocks[l.i]])[..|times|] == times;
    }
  }

  lemma MoreTimes(run: seq<State>, i: nat, k: nat, js: seq<nat>)
    requires k + 1 < |run| && ReadAt(run, i, k, js)
    ensures ReadAt(run, i, k + 1, js) && Times(run, i, k + 1, js) == Times(run, i, k, js)
    ensures i < k && |js| < |run[k].heap.clocks| ==>
              ReadAt(run, i, k + 1, js + [k]) && Times(run, i, k + 1, js + [k]) == Times(run, i, k, js) + [run[k].heap.clocks[|js|]]
  {
  }

  lemma OwnProgress(s: State, u: nat, c: bool, t: nat, setting: bool, times: seq<nat>)
    requires Inv(s) && u < |s.locals| && t < |s.locals| && Progress(s.heap, t, s.locals[t], setting, times)
    requires !Step(s, u, c).locals[t].pc.Idle?
    ensures var l, s' := s.locals[t], Step(s, u, c);
            Progress(s'.heap, t, s'.locals[t], setting,
                     if u == t && l.pc.ScanClock? && l.i < |s.heap.clocks| then times + [s.heap.clocks[l.i]] else times)
  {
    if u == t {
      ProgressStep(s.heap, t, s.locals[t], setting, times, c);
    } else {
      StepKeeps(s, u, c);
      assert Rely(s.heap, Step(s, u, c).heap, t);
    }
  }

  /** What the operation has read, at the instants `js`, and how far it has come with it. */
  ghost predicate Exact(run: seq<State>, i: nat, k: nat, t: nat, setting: bool, js: seq<nat>) {
    && k < |run| && t < |run[k].locals|
    && ReadAt(run, i, k, js) && Progress(run[k].heap, t, run[k].locals[t], setting, Times(run, i, k, js))
  }

  lemma ExactAtStart(run: seq<State>, i: nat, t: nat, setting: bool)
    requires IsRun(run) && Call(run, i, i + 1, t, setting)
    ensures Exact(run, i, i + 1, t, setting, [])
  {
    RunInv(run, i);
    assert run[i + 1].locals[t].pc.ScanClock?;
  }

  lemma ExactStep(run: seq<State>, i: nat, k: nat, t: nat, setting: bool, js: seq<nat>) returns (js': seq<nat>)
    requires IsRun(run) && k + 1 < |run| && i < k && Exact(run, i, k, t, setting, js)
    requires t < |run[k + 1].locals| && !run[k + 1].locals[t].pc.Idle?
    ensures Exact(run, i, k + 1, t, setting, js')
  {
    RunInv(run, k);
    var u, c := StepAt(run, k + 1);
    hide IsRun, Inv, StepThread, Times, ReadAt;
    var l := run[k].locals[t];
    OwnProgress(run[k], u, c, t, setting, Times(run, i, k, js));
    MoreTimes(run, i, k, js);
    js' := js;
    if u == t && l.pc.ScanClock? && l.i < |run[k].heap.clocks| {
      ProgressSize(run[k].heap, t, l, setting, run, i, k, js);
      js' := js + [k];
    }
  }

  lemma ProgressSize(h: Heap, t: nat, l: Local, setting: bool, run: seq<State>, i: nat, k: nat, js: seq<nat>)
    requires ReadAt(run, i, k, js) && Progress(h, t, l, setting, Times(run, i, k, js)) && l.pc.ScanClock?
    ensures l.i == |js|
  {
  }

  /** An operation reads every clock once, in order, while it runs. A time that is read is the latest of those; a
      timestamp that is set is one more, and the thread's own clock shows it. */
  lemma {:induction false} CallIsExact(run: seq<State>, i: nat, k: nat, t: nat, setting: bool) returns (js: seq<nat>)
    requires IsRun(run) && Call(run, i, k, t, setting)
    ensures Exact(run, i, k, t, setting, js)
    decreases k
  {
    hide Exact, IsRun, Step;
    if k == i + 1 {
      js := [];
      ExactAtStart(run, i, t, setting);
    } else {
      js := CallIsExact(run, i, k - 1, t, setting);
      js := ExactStep(run, i, k - 1, t, setting, js);
    }
  }
}
