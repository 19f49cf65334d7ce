/** The k-stack with `committed` as it is written: it reads the remove counter once to see whether it is
    zero, and once more to see whether it is at least one. If the counter falls to zero in between, it
    returns false although it has left the item where it is, and push starts over with the same item.
    As long as this does not happen, the runs are those of the model that reads the counter once. */
module KStackTwoReads {
  import opened Basics
  import opened Segments
  import opened KStackModel
  import opened KStackInvariant
  import Theorems = KStackTheorems

  /** `again` are the threads that have found the counter not zero and read it again next. */
  datatype Reads = Reads(state: State, again: seq<bool>)

  /** The first read decides whether there is a second one, the second one whether the rest of `committed` is
      carried out. */
  function StepReads(h: Heap, u: nat, l: Local, c: Choice, again: bool): (Heap, Local, bool) {
    var remove := SegAt(h, l.topOld.seg).remove;
    if l.pc.CmReadRemove? && !again && remove != 0 then (h, l, true)
    else if l.pc.CmReadRemove? && again && !(remove >= 1) then (h, l.(pc := PushReadTop), false)
    else
      var r := StepThread(h, u, l, c);
      (r.0, r.1, again && !l.pc.CmReadRemove?)
  }

  function Step2(s: Reads, u: nat, c: Choice): Reads
    requires u < |s.state.locals| == |s.again|
  {
    var r := StepReads(s.state.heap, u, s.state.locals[u], c, s.again[u]);
    Reads(State(r.0, s.state.locals[u := r.1]), s.again[u := r.2])
  }

  /** The second read of thread `u` finds the counter at zero. */
  predicate FallsThrough(s: Reads, u: nat)
    requires u < |s.state.locals| == |s.again|
  {
    var l := s.state.locals[u];
    l.pc.CmReadRemove? && s.again[u] && SegAt(s.state.heap, l.topOld.seg).remove < 1
  }

  predicate Init2(s: Reads) {
    Init(s.state) && |s.again| == |s.state.locals| && forall t :: 0 <= t < |s.again| ==> !s.again[t]
  }

  ghost predicate Next2(s: Reads, s': Reads) {
    |s.state.locals| == |s.again| && exists u: nat, c :: u < |s.again| && s' == Step2(s, u, c)
  }

  /** A step in which nobody falls through. */
  ghost predicate Sound(s: Reads, s': Reads) {
    |s.state.locals| == |s.again| && exists u: nat, c :: u < |s.again| && s' == Step2(s, u, c) && !FallsThrough(s, u)
  }

  ghost predicate IsRun2(run: seq<Reads>) {
    |run| > 0 && Init2(run[0]) && forall i :: 0 <= i < |run| - 1 ==> Next2(run[i], run[i + 1])
  }

  /** A run in which nobody has fallen through yet. */
  ghost predicate IsSoundRun(run: seq<Reads>) {
    |run| > 0 && Init2(run[0]) && forall i :: 0 <= i < |run| - 1 ==> Sound(run[i], run[i + 1])
  }

  // ------------------------------------------------------------------ exactly when it goes wrong

  /** As long as nobody has fallen through, all states are those of a run of the model with one read, about
      which everything that is proved of that model holds. */
  lemma {:induction false} SameAsOneRead(run: seq<Reads>) returns (plain: seq<State>)
    requires IsSoundRun(run)
    ensures IsRun(plain) && plain[|plain| - 1] == run[|run| - 1].state
    ensures |run[|run| - 1].again| == |run[|run| - 1].state.locals|
    decreases |run|
  {
    hide StepThread, Init;
    var n := |run|;
    if n == 1 {
      plain := [run[0].state];
    } else {
      var before := run[..n - 1];
      forall i | 0 <= i < |before| - 1 ensures Sound(before[i], before[i + 1]) {
        assert Sound(run[i], run[i + 1]);
      }
      plain := SameAsOneRead(before);
      assert Sound(run[n - 2], run[n - 2 + 1]);
      var u: nat, c :| u < |run[n - 2].again| && run[n - 1] == Step2(run[n - 2], u, c) && !FallsThrough(run[n - 2], u);
      var s, s' := run[n - 2].state, run[n - 1].state;
      if s' == Step(s, u, c) {
        plain := Extended(plain, s, s', u, c);
      } else {
        assert s.locals[u := s.locals[u]] == s.locals;
        assert s' == s;
      }
    }
  }

  lemma Extended(plain: seq<State>, s: State, s': State, u: nat, c: Choice) returns (more: seq<State>)
    requires IsRun(plain) && plain[|plain| - 1] == s && u < |s.locals| && s' == Step(s, u, c)
    ensures IsRun(more) && more[|more| - 1] == s'
  {
    hide Step, Init;
    more := plain + [s'];
    assert Next(s, s');
    forall i | 0 <= i < |more| - 1 ensures Next(more[i], more[i + 1]) {
      assert i < |plain| - 1 ==> Next(plain[i], plain[i + 1]);
    }
  }

  /** When `committed` returns false and push starts over, its item is neither in a slot nor popped if and only if
      the second read did not find the counter at zero. If it did, the item has been popped or is still in
      its slot, and push will put it into the stack once more. */
  lemma StartsOver(run: seq<Reads>, u: nat, c: Choice)
    requires IsSoundRun(run) && var s := run[|run| - 1]; u < |s.again| == |s.state.locals|
    requires var s := run[|run| - 1]; InCommitted(s.state.locals[u].pc) && Step2(s, u, c).state.locals[u].pc.PushReadTop?
    ensures var s := run[|run| - 1];
            var x, h' := s.state.locals[u].item, Step2(s, u, c).state.heap;
            && (x !in h'.status <==> !FallsThrough(s, u))
            && (FallsThrough(s, u) ==>
                  && x !in h'.done
                  && (h'.status[x].Placed? ==> SlotAt(h', h'.status[x].seg, h'.status[x].slot).value == x))
  {
    var plain := SameAsOneRead(run);
    Theorems.RunInv(plain, |plain| - 1);
    var s := run[|run| - 1].state;
    assert LocalInv(s.heap, u, s.locals[u]);
    hide Core, LocalInv, IsRun, IsSoundRun;
    RestartOf(s.heap, u, s.locals[u], c, run[|run| - 1].again[u]);
  }

  lemma RestartOf(h: Heap, u: nat, l: Local, c: Choice, again: bool)
    requires CommittedInv(h, u, l) && InCommitted(l.pc) && StepReads(h, u, l, c, again).1.pc.PushReadTop?
    ensures var h' := StepReads(h, u, l, c, again).0;
            var falls := l.pc.CmReadRemove? && again && SegAt(h, l.topOld.seg).remove < 1;
            && (l.item !in h'.status <==> !falls)
            && (falls ==> h' == h && l.item !in h.done && (h.status[l.item].Placed? ==>
                  SlotAt(h, h.status[l.item].seg, h.status[l.item].slot).value == l.item))
  {
  }

  // ------------------------------------------------------------------ a run in which it goes wrong

  /** Consecutive steps of thread `u`. */
  ghost function Steps(h: Heap, u: nat, l: Local, c: Choice, again: bool, n: nat): (Heap, Local, bool)
    decreases n
  {
    if n == 0 then (h, l, again) else
      var r := StepReads(h, u, l, c, again);
      Steps(r.0, u, r.1, c, r.2, n - 1)
  }

  lemma {:induction false} ExtendRun(run: seq<Reads>, u: nat, c: Choice, n: nat) returns (run': seq<Reads>)
    requires IsRun2(run) && var s := run[|run| - 1]; u < |s.state.locals| == |s.again|
    ensures IsRun2(run') && |run'| >= |run|
    ensures var s := run[|run| - 1];
            var r := Steps(s.state.heap, u, s.state.locals[u], c, s.again[u], n);
            run'[|run'| - 1] == Reads(State(r.0, s.state.locals[u := r.1]), s.again[u := r.2])
    decreases n
  {
    hide StepReads, Init2;
    var s := run[|run| - 1];
    if n == 0 {
      run' := run;
      assert s.state.locals[u := s.state.locals[u]] == s.state.locals && s.again[u := s.again[u]] == s.again;
    } else {
      var s' := Step2(s, u, c);
      var more := run + [s'];
      assert Next2(s, s');
      forall i | 0 <= i < |more| - 1 ensures Next2(more[i], more[i + 1]) {
        assert i < |run| - 1 ==> Next2(run[i], run[i + 1]);
      }
      run' := ExtendRun(more, u, c, n - 1);
      var r := Steps(s'.state.heap, u, s'.state.locals[u], c, s'.again[u], n - 1);
      assert s'.state.locals[u := r.1] == s.state.locals[u := r.1] && s'.again[u := r.2] == s.again[u := r.2];
    }
  }

  /** The steps so far, and one more. */
  lemma Then(h: Heap, u: nat, l: Local, c: Choice, again: bool, n: nat, r: (Heap, Local, bool))
    requires n > 0 && StepReads(h, u, l, c, again) == r
    ensures Steps(h, u, l, c, again, n) == Steps(r.0, u, r.1, c, r.2, n - 1)
  {
  }

  lemma NoMore(h: Heap, u: nat, l: Local, c: Choice, again: bool)
    ensures Steps(h, u, l, c, again, 0) == (h, l, again)
  {
  }

  function PushOf(x: int): Choice {
    Choice(true, x, 0)
  }

  const POP := Choice(false, NULL, 0)
  const ANY := Ptr(0, 0)
  const IDLE := Local(Idle, false, NULL, 0, 0, {}, None, EMPTY, EMPTY, ANY, ANY, 0, map[], false, [], ANY, NoResult, 0)

  /** Segment `s` of one slot is on top. */
  ghost predicate OnTop(h: Heap, s: nat, slot: Slot) {
    h.k == 1 && s < |h.segs| && h.top.seg == s && |h.segs[s].items| == 1 && h.segs[s].items[0] == slot
  }

  /** A push that starts to look for a slot. */
  predicate Pushes(l: Local, x: int) {
    l.pc.PushReadTop? && l.push && l.item == x != NULL
  }

  /** Its item is in the slot of segment `s`. */
  predicate HasPut(l: Local, x: int, s: nat, h: Heap) {
    l.pc.CmCheckSlot? && l.push && l.item == x != NULL && l.topOld.seg == s && l.found == Some(0) && l.newItem == Slot(x, 1)
  }

  lemma PushStarts(h: Heap, l: Local, x: int, n: nat) returns (l': Local)
    requires l.pc.Idle? && x != NULL && x !in h.owner
    ensures Pushes(l', x)
    ensures Steps(h, 0, l, PushOf(x), false, n + 1) == Steps(h.(owner := h.owner[x := 0]), 0, l', PushOf(x), false, n)
  {
    l' := l.(pc := PushReadTop, push := true, item := x, op := l.op + 1);
    Then(h, 0, l, PushOf(x), false, n + 1, (h.(owner := h.owner[x := 0]), l', false));
  }

  lemma PushPuts(h: Heap, l: Local, x: int, s: nat, n: nat) returns (l': Local)
    requires OnTop(h, s, EMPTY) && Pushes(l, x)
    ensures HasPut(l', x, s, h)
    ensures Steps(h, 0, l, PushOf(x), false, n + 4) == Steps(PutItem(h, s, 0, Slot(x, 1)), 0, l', PushOf(x), false, n)
  {
    hide Steps, PutItem;
    var c := PushOf(x);
    var l1 := Scan(l.(pc := PushScan, topOld := h.top), c, h.k);
    assert SlotAt(h, s, 0) == EMPTY;
    var l2 := l1.(pc := PushCheckTop, found := Some(0), slotOld := EMPTY);
    var l3 := l2.(pc := PushCas, newItem := Slot(x, 1));
    l' := l3.(pc := CmCheckSlot);
    Then(h, 0, l, c, false, n + 4, (h, l1, false));
    Then(h, 0, l1, c, false, n + 3, (h, l2, false));
    Then(h, 0, l2, c, false, n + 2, (h, l3, false));
    Then(h, 0, l3, c, false, n + 1, (PutItem(h, s, 0, Slot(x, 1)), l', false));
  }

  lemma PushGrows(h: Heap, l: Local, x: int, s: nat, slot: Slot, n: nat) returns (l': Local)
    requires OnTop(h, s, slot) && slot.value != NULL && Pushes(l, x)
    ensures Pushes(l', x)
    ensures Steps(h, 0, l, PushOf(x), false, n + 5) == Steps(AddSegment(h), 0, l', PushOf(x), false, n)
  {
    hide Steps, AddSegment;
    var c := PushOf(x);
    var l1 := Scan(l.(pc := PushScan, topOld := h.top), c, h.k);
    assert SlotAt(h, s, 0) == slot;
    var l2 := l1.(pc := PushCheckTop, i := 1);
    Then(h, 0, l, c, false, n + 5, (h, l1, false));
    Then(h, 0, l1, c, false, n + 4, (h, l2, false));
    Then(h, 0, l2, c, false, n + 3, (h, l2.(pc := AddCheckTop), false));
    Then(h, 0, l2.(pc := AddCheckTop), c, false, n + 2, (h, l2.(pc := AddCasTop), false));
    l' := l2.(pc := PushReadTop);
    Then(h, 0, l2.(pc := AddCasTop), c, false, n + 1, (AddSegment(h), l', false));
  }

  lemma PushCommits(h: Heap, l: Local, x: int, s: nat, n: nat) returns (l': Local)
    requires HasPut(l, x, s, h) && OnTop(h, s, Slot(x, 1)) && h.segs[s].remove == 0
    ensures l' == l.(pc := Return, result := True)
    ensures Steps(h, 0, l, PushOf(x), false, n + 2) == Steps(Protect(h, x), 0, l', PushOf(x), false, n)
  {
    hide Steps, Protect;
    var c := PushOf(x);
    assert SlotAt(h, s, 0) == Slot(x, 1);
    l' := l.(pc := Return, result := True);
    Then(h, 0, l, c, false, n + 2, (h, l.(pc := CmReadRemove), false));
    Then(h, 0, l.(pc := CmReadRemove), c, false, n + 1, (Protect(h, x), l', false));
  }

  lemma PutFrame(h: Heap, s: nat, x: int, slot: Slot)
    requires OnTop(h, s, slot)
    ensures var h' := PutItem(h, s, 0, Slot(x, 1));
            && OnTop(h', s, Slot(x, 1)) && h'.owner == h.owner && |h'.segs| == |h.segs| && h'.top == h.top
            && h'.segs[s].remove == h.segs[s].remove && h'.segs[s].next == h.segs[s].next
            && h'.segs[s].removers == h.segs[s].removers
            && forall s1: nat :: s1 < |h.segs| && s1 != s ==> h'.segs[s1] == h.segs[s1]
  {
  }

  lemma AddFrame(h: Heap)
    requires h.k == 1
    ensures var h', s := AddSegment(h), |h.segs|;
            && OnTop(h', s, EMPTY) && h'.owner == h.owner && h'.segs == h.segs + [NewSegment(1, h.top.seg)]
  {
  }

  lemma ProtectFrame(h: Heap, x: int)
    ensures var h' := Protect(h, x); h'.segs == h.segs && h'.k == h.k && h'.top == h.top && h'.owner == h.owner
  {
  }

  /** Item 1 fills segment 0. */
  lemma FirstPush() returns (h: Heap, l: Local)
    ensures Steps(InitHeap(1), 0, IDLE, PushOf(1), false, 8) == (h, l, false)
    ensures OnTop(h, 0, Slot(1, 1)) && |h.segs| == 1 && l.pc.Idle? && 2 !in h.owner
  {
    hide Steps, PutItem, Protect;
    var c := PushOf(1);
    var l1 := PushStarts(InitHeap(1), IDLE, 1, 7);
    var h1 := InitHeap(1).(owner := InitHeap(1).owner[1 := 0]);
    var l2 := PushPuts(h1, l1, 1, 0, 3);
    PutFrame(h1, 0, 1, EMPTY);
    var h2 := PutItem(h1, 0, 0, Slot(1, 1));
    var l3 := PushCommits(h2, l2, 1, 0, 1);
    ProtectFrame(h2, 1);
    var h3 := Protect(h2, 1);
    h, l := h3.(done := h3.done + {1}), l3.(pc := Idle);
    Then(h3, 0, l3, c, false, 1, (h, l, false));
    NoMore(h, 0, l, c, false);
  }

  /** The push of item 2 finds segment 0 full and puts segment 1 on top. */
  lemma SecondPushStarts(h: Heap, l: Local) returns (h': Heap, l': Local)
    requires OnTop(h, 0, Slot(1, 1)) && |h.segs| == 1 && l.pc.Idle? && 2 !in h.owner
    ensures Steps(h, 0, l, PushOf(2), false, 6) == (h', l', false)
    ensures OnTop(h', 1, EMPTY) && |h'.segs| == 2 && h'.segs[1].next == 0 && h'.segs[1].remove == 0 && Pushes(l', 2)
  {
    hide Steps, AddSegment;
    var l1 := PushStarts(h, l, 2, 5);
    var h1 := h.(owner := h.owner[2 := 0]);
    l' := PushGrows(h1, l1, 2, 0, Slot(1, 1), 0);
    AddFrame(h1);
    h' := AddSegment(h1);
    NoMore(h', 0, l', PushOf(2), false);
  }

  /** A pop adds to the counter of the empty segment 1, to remove it. */
  lemma PopAdds(h: Heap) returns (l': Local)
    requires OnTop(h, 1, EMPTY) && h.segs[1].next == 0
    ensures Steps(h, 1, IDLE, POP, false, 9) == (AddRemover(h, 1, 1), l', false)
    ensures l'.pc.EmptyFirst? && l'.removing && l'.topOld.seg == 1 && l'.i == 0 && l'.start == 0
  {
    hide Steps, AddRemover;
    var l1 := IDLE.(pc := PopReadTop, push := false, op := 1);
    var l2 := Scan(l1.(pc := PopScan, topOld := h.top), POP, h.k);
    assert SlotAt(h, 1, 0) == EMPTY;
    var l3 := l2.(pc := PopCheckTop, i := 1);
    var l4 := l3.(pc := RmReadNext, topCurrent := h.top);
    var l5 := l4.(pc := RmCheckTop, next := 0);
    l' := Scan(l5.(pc := EmptyFirst, removing := true), POP, h.k);
    Then(h, 1, IDLE, POP, false, 9, (h, l1, false));
    Then(h, 1, l1, POP, false, 8, (h, l2, false));
    Then(h, 1, l2, POP, false, 7, (h, l3, false));
    Then(h, 1, l3, POP, false, 6, (h, l3.(pc := PopReadNext), false));
    Then(h, 1, l3.(pc := PopReadNext), POP, false, 5, (h, l3.(pc := RmReadTop), false));
    Then(h, 1, l3.(pc := RmReadTop), POP, false, 4, (h, l4, false));
    Then(h, 1, l4, POP, false, 3, (h, l5, false));
    Then(h, 1, l5, POP, false, 2, (h, l5.(pc := RmAdd), false));
    Then(h, 1, l5.(pc := RmAdd), POP, false, 1, (AddRemover(h, 1, 1), l', false));
    NoMore(AddRemover(h, 1, 1), 1, l', POP, false);
  }

  /** The push puts item 2 into segment 1 and reads the counter, which is not zero. */
  lemma FirstRead(h: Heap, l: Local) returns (l': Local)
    requires OnTop(h, 1, EMPTY) && h.segs[1].remove == 1 && Pushes(l, 2)
    ensures Steps(h, 0, l, PushOf(2), false, 6) == (PutItem(h, 1, 0, Slot(2, 1)), l', true)
    ensures l'.pc.CmReadRemove? && l'.push && l'.item == 2 && l'.topOld.seg == 1
  {
    hide Steps, PutItem;
    var c := PushOf(2);
    var l1 := PushPuts(h, l, 2, 1, 2);
    PutFrame(h, 1, 2, EMPTY);
    var h1 := PutItem(h, 1, 0, Slot(2, 1));
    assert SlotAt(h1, 1, 0) == Slot(2, 1);
    l' := l1.(pc := CmReadRemove);
    Then(h1, 0, l1, c, false, 2, (h1, l', false));
    Then(h1, 0, l', c, false, 1, (h1, l', true));
    NoMore(h1, 0, l', c, true);
  }

  /** The pop finds item 2 and subtracts from the counter again. */
  lemma PopSubtracts(h: Heap, l: Local) returns (l': Local)
    requires OnTop(h, 1, Slot(2, 1)) && l.pc.EmptyFirst? && l.removing && l.topOld.seg == 1 && l.i == 0 && l.start == 0
    ensures Steps(h, 1, l, POP, false, 2) == (SubRemover(h, 1, 1), l', false)
  {
    hide Steps, SubRemover;
    assert SlotAt(h, 1, 0) == Slot(2, 1);
    l' := l.(pc := PopReadTop);
    Then(h, 1, l, POP, false, 2, (h, l.(pc := RmSub), false));
    Then(h, 1, l.(pc := RmSub), POP, false, 1, (SubRemover(h, 1, 1), l', false));
    NoMore(SubRemover(h, 1, 1), 1, l', POP, false);
  }

  /** The push reads the counter again, finds it at zero, starts over and puts item 2 into segment 2 as well. */
  lemma SecondRead(h: Heap, l: Local) returns (h': Heap, l': Local)
    requires OnTop(h, 1, Slot(2, 1)) && |h.segs| == 2 && h.segs[1].remove == 0
    requires l.pc.CmReadRemove? && l.push && l.item == 2 && l.topOld.seg == 1
    ensures Steps(h, 0, l, PushOf(2), true, 12) == (h', l', false)
    ensures l'.pc.Return? && l'.push && l'.item == 2 && l'.result.True?
    ensures SlotAt(h', 1, 0) == SlotAt(h', 2, 0) == Slot(2, 1)
  {
    hide Steps, AddSegment, PutItem, Protect;
    var c := PushOf(2);
    var l1 := l.(pc := PushReadTop);
    Then(h, 0, l, c, true, 12, (h, l1, false));
    var l2 := PushGrows(h, l1, 2, 1, Slot(2, 1), 6);
    AddFrame(h);
    var h1 := AddSegment(h);
    var l3 := PushPuts(h1, l2, 2, 2, 2);
    PutFrame(h1, 2, 2, EMPTY);
    var h2 := PutItem(h1, 2, 0, Slot(2, 1));
    l' := PushCommits(h2, l3, 2, 2, 0);
    h' := Protect(h2, 2);
    ProtectFrame(h2, 2);
    NoMore(h', 0, l', c, false);
    assert h'.segs[1] == h1.segs[1] == h.segs[1];
  }

  lemma RemoverFrame(h: Heap, slot: Slot)
    requires OnTop(h, 1, slot)
    ensures var h' := AddRemover(h, 1, 1); OnTop(h', 1, slot) && |h'.segs| == |h.segs| && h'.segs[1].remove == h.segs[1].remove + 1
    ensures var h' := SubRemover(h, 1, 1); OnTop(h', 1, slot) && |h'.segs| == |h.segs| && h'.segs[1].remove == h.segs[1].remove - 1
  {
  }

  function InitReads(): Reads {
    Reads(State(InitHeap(1), [IDLE, IDLE]), [false, false])
  }

  /** A run of two threads up to the heap `h` and locals `a` and `b`. */
  ghost predicate Ends(run: seq<Reads>, h: Heap, a: Local, b: Local, again: bool) {
    IsRun2(run) && run[|run| - 1] == Reads(State(h, [a, b]), [again, false])
  }

  lemma PushRuns(run: seq<Reads>, h: Heap, a: Local, b: Local, again: bool, c: Choice, n: nat, r: (Heap, Local, bool))
    returns (run': seq<Reads>)
    requires Ends(run, h, a, b, again) && Steps(h, 0, a, c, again, n) == r
    ensures Ends(run', r.0, r.1, b, r.2)
  {
    hide Steps;
    run' := ExtendRun(run, 0, c, n);
    assert [a, b][0 := r.1] == [r.1, b] && [again, false][0 := r.2] == [r.2, false];
  }

  lemma PopRuns(run: seq<Reads>, h: Heap, a: Local, b: Local, again: bool, c: Choice, n: nat, h': Heap, b': Local)
    returns (run': seq<Reads>)
    requires Ends(run, h, a, b, again) && Steps(h, 1, b, c, false, n) == (h', b', false)
    ensures Ends(run', h', a, b', again)
  {
    hide Steps;
    run' := ExtendRun(run, 1, c, n);
    assert [a, b][1 := b'] == [a, b'] && [again, false][1 := false] == [again, false];
  }

  lemma UpToPop() returns (run: seq<Reads>, h: Heap, a: Local)
    ensures Ends(run, h, a, IDLE, false)
    ensures OnTop(h, 1, EMPTY) && |h.segs| == 2 && h.segs[1].next == 0 && h.segs[1].remove == 0 && Pushes(a, 2)
  {
    var run0 := [InitReads()];
    assert Ends(run0, InitHeap(1), IDLE, IDLE, false);
    hide Steps, StepReads, Ends, Pushes, InitHeap;
    var h1, l1 := FirstPush();
    var run1 := PushRuns(run0, InitHeap(1), IDLE, IDLE, false, PushOf(1), 8, (h1, l1, false));
    h, a := SecondPushStarts(h1, l1);
    run := PushRuns(run1, h1, l1, IDLE, false, PushOf(2), 6, (h, a, false));
  }

  /** The first read of the counter comes before the pop subtracts, the second one after it. */
  lemma UpToSecondRead() returns (run: seq<Reads>, h: Heap, a: Local, b: Local)
    ensures Ends(run, h, a, b, true) && OnTop(h, 1, Slot(2, 1)) && |h.segs| == 2 && h.segs[1].remove == 0
    ensures a.pc.CmReadRemove? && a.push && a.item == 2 && a.topOld.seg == 1
  {
    hide Steps, StepReads, PutItem, AddRemover, SubRemover, Ends, Pushes;
    var run2, h2, l2 := UpToPop();
    var p3 := PopAdds(h2);
    RemoverFrame(h2, EMPTY);
    var h3 := AddRemover(h2, 1, 1);
    var run3 := PopRuns(run2, h2, l2, IDLE, false, POP, 9, h3, p3);
    a := FirstRead(h3, l2);
    PutFrame(h3, 1, 2, EMPTY);
    var h4 := PutItem(h3, 1, 0, Slot(2, 1));
    var run4 := PushRuns(run3, h3, l2, p3, false, PushOf(2), 6, (h4, a, true));
    b := PopSubtracts(h4, p3);
    RemoverFrame(h4, Slot(2, 1));
    h := SubRemover(h4, 1, 1);
    run := PopRuns(run4, h4, a, p3, true, POP, 2, h, b);
  }

  /** A run in which a push returns with its item in two slots. */
  lemma PushedTwice() returns (run: seq<Reads>)
    ensures IsRun2(run)
    ensures var s := run[|run| - 1].state;
            && |s.locals| == 2 && var l := s.locals[0];
            && l.pc.Return? && l.push && l.item == 2 && l.result.True?
            && SlotAt(s.heap, 1, 0).value == SlotAt(s.heap, 2, 0).value == 2
  {
    hide Steps, StepReads, Ends;
    var before, h, a, b := UpToSecondRead();
    var h', a' := SecondRead(h, a);
    run := PushRuns(before, h, a, b, true, PushOf(2), 12, (h', a', false));
    EndOf(run, h', a', b);
  }

  lemma EndOf(run: seq<Reads>, h: Heap, a: Local, b: Local)
    requires Ends(run, h, a, b, false)
    ensures IsRun2(run) && run[|run| - 1].state == State(h, [a, b])
  {
  }
}
