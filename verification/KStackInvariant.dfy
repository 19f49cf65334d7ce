/** What every step of the k-stack keeps: an invariant of shared memory, what each thread knows at each
    program counter, and the relation the steps of the other threads stay within. */
module KStackInvariant {
  import opened Basics
  import opened Segments
  import opened KStackModel

  // ------------------------------------------------------------------ shared memory

  ghost predicate SegOk(h: Heap, s: nat)
    requires s < |h.segs|
  {
    && |h.segs[s].items| == h.k
    && h.segs[s].remove == |h.segs[s].removers|
    && (None in h.segs[s].removers <==> s !in h.live)
  }

  /** Live segment `i` is on top of live segment `i - 1`. */
  ghost predicate LinkOk(h: Heap, i: nat) {
    i < |h.live| && h.live[i] < |h.segs| ==>
      h.segs[h.live[i]].next == if i > 0 then h.live[i - 1] else NIL
  }

  /** The live segments are linked from top to the bottom, in the order in which they were added. */
  ghost predicate Shape(h: Heap) {
    && h.k > 0 && |h.live| > 0 && h.top.seg == h.live[|h.live| - 1]
    && (forall i {:trigger h.live[i]} :: 0 <= i < |h.live| ==> h.live[i] < |h.segs|)
    && (forall i, j {:trigger h.live[i], h.live[j]} :: 0 <= i < j < |h.live| ==> h.live[i] < h.live[j])
    && (forall i: nat {:trigger LinkOk(h, i)} :: LinkOk(h, i))
    && forall s: nat {:trigger h.segs[s]} :: s < |h.segs| ==> SegOk(h, s)
  }

  /** Item `x` is where its status says; if it is safe, its segment is in the stack. */
  ghost predicate ItemOk(h: Heap, x: int) {
    x in h.status ==>
      && x in h.owner && x != NULL
      && match h.status[x]
         case Taken => true
         case Placed(s, i, safe) => s < |h.segs| && i < h.k && SlotAt(h, s, i).value == x && (safe ==> s in h.live)
  }

  /** A slot holds NULL or an item whose status says so. */
  ghost predicate SlotOk(h: Heap, s: nat, i: nat) {
    var x := SlotAt(h, s, i).value;
    x != NULL ==> x in h.status && h.status[x].Placed? && h.status[x].seg == s && h.status[x].slot == i
  }

  ghost predicate Items(h: Heap) {
    && (forall x {:trigger ItemOk(h, x)} :: ItemOk(h, x))
    && (forall s: nat, i: nat {:trigger SlotOk(h, s, i)} :: SlotOk(h, s, i))
  }

  /** The items taken are those in the log, once each; a completed push's item is taken or safe. */
  ghost predicate History(h: Heap) {
    && (forall j {:trigger h.log[j]} :: 0 <= j < |h.log| ==> h.log[j].item in h.status && h.status[h.log[j].item].Taken?)
    && (forall i, j {:trigger h.log[i], h.log[j]} :: 0 <= i < j < |h.log| ==> h.log[i].item != h.log[j].item)
    && (forall x {:trigger x in h.status} :: x in h.status && h.status[x].Taken? ==>
          exists j :: 0 <= j < |h.log| && h.log[j].item == x)
    && (forall x {:trigger x in h.done} :: x in h.done ==> Safe(h, x))
  }

  ghost predicate Safe(h: Heap, x: int) {
    x in h.status && (h.status[x].Placed? ==> h.status[x].safe)
  }

  ghost predicate Core(h: Heap) {
    Shape(h) && Items(h) && History(h)
  }

  lemma AtItem(h: Heap, x: int)
    requires Items(h)
    ensures ItemOk(h, x)
  {
  }

  lemma AtSlot(h: Heap, s: nat, i: nat)
    requires Items(h)
    ensures SlotOk(h, s, i)
  {
  }

  lemma AtLink(h: Heap, i: nat)
    requires Shape(h)
    ensures LinkOk(h, i)
  {
  }

  // ------------------------------------------------------------------ interference

  /** The order in which the values of top follow each other: no value recurs. */
  predicate TopLe(p: Ptr, q: Ptr) {
    p.aba < q.aba || (p.aba == q.aba && p.seg <= q.seg)
  }

  /** The versions of a slot grow with every change. */
  predicate Newer(a: Slot, b: Slot) {
    b == a || b.aba > a.aba
  }

  /** What the steps of other threads may do to item `x` of this thread: a pop may take it. */
  ghost predicate OwnStep(h: Heap, h': Heap, x: int) {
    && (x in h'.done ==> x in h.done)
    && (x !in h.status ==> x !in h'.status)
    && (x in h.status ==>
          && x in h'.status
          && (h'.status[x] == h.status[x] || h'.status[x].Taken?)
          && (h'.status[x].Placed? ==>
                SlotAt(h', h.status[x].seg, h.status[x].slot) == SlotAt(h, h.status[x].seg, h.status[x].slot)))
  }

  /** An item becomes safe only while nobody is removing its segment, or by a change of top. */
  ghost predicate SafeStep(h: Heap, h': Heap, x: int) {
    x in h'.status && h'.status[x].Placed? && h'.status[x].safe ==>
      && x in h.status && h.status[x].Placed?
      && h.status[x].seg == h'.status[x].seg && h.status[x].slot == h'.status[x].slot
      && (h.status[x].safe || h'.top != h.top || SegAt(h, h.status[x].seg).removers == {})
  }

  ghost predicate SegStep(h: Heap, h': Heap, t: nat, s: nat) {
    && (s < |h.segs| <= |h'.segs| ==>
          && h'.segs[s].next == h.segs[s].next
          && (Some(t) in h'.segs[s].removers <==> Some(t) in h.segs[s].removers))
    && (|h.segs| <= s < |h'.segs| ==> Some(t) !in h'.segs[s].removers)
  }

  ghost predicate SlotStep(h: Heap, h': Heap, s: nat, i: nat) {
    s < |h.segs| ==> Newer(SlotAt(h, s, i), SlotAt(h', s, i))
  }

  /** The steps of threads other than `t` stay within this relation. */
  ghost predicate Rely(h: Heap, h': Heap, t: nat) {
    && h'.k == h.k && |h.segs| <= |h'.segs|
    && TopLe(h.top, h'.top)
    && (forall s: nat {:trigger SegStep(h, h', t, s)} :: SegStep(h, h', t, s))
    && (forall s: nat, i: nat {:trigger SlotStep(h, h', s, i)} :: SlotStep(h, h', s, i))
    && (forall x {:trigger OwnStep(h, h', x)} :: x in h.owner && h.owner[x] == t ==> OwnStep(h, h', x))
    && (forall x {:trigger SafeStep(h, h', x)} :: SafeStep(h, h', x))
    && (forall x {:trigger x in h'.owner} {:trigger x in h.owner} :: x in h.owner ==> x in h'.owner && h'.owner[x] == h.owner[x])
    && h.log <= h'.log
  }

  // ------------------------------------------------------------------ what a thread knows

  /** A value of top read earlier. */
  ghost predicate WasTop(h: Heap, p: Ptr) {
    0 <= p.seg < |h.segs| && TopLe(p, h.top)
  }

  /** Thread `t` has added to the counter of segment `s`, and to no other, without subtracting. */
  ghost predicate RemovingAt(h: Heap, t: nat, s: int) {
    forall s1: nat {:trigger h.segs[s1]} :: s1 < |h.segs| ==> (Some(t) in h.segs[s1].removers <==> s1 == s)
  }

  predicate Outstanding(l: Local) {
    (InEmpty(l.pc) && l.removing) || l.pc.RmReadNext2? || l.pc.RmCasTop? || l.pc.RmSub?
  }

  /** As long as top has not changed, no safe item is in a slot that a pass of is_empty has gone over. */
  ghost predicate Passed(h: Heap, p: Ptr, seen: set<nat>, x: int) {
    h.top == p && x in h.status && h.status[x].Placed? && h.status[x].seg == p.seg && h.status[x].slot in seen ==>
      !h.status[x].safe
  }

  ghost predicate Scanned(h: Heap, p: Ptr, seen: set<nat>) {
    forall x {:trigger Passed(h, p, seen, x)} :: Passed(h, p, seen, x)
  }

  ghost predicate Found(h: Heap, l: Local, empty: bool) {
    l.found.Some? ==> l.found.value < h.k && ((l.slotOld.value == NULL) == empty)
  }

  ghost predicate Last(h: Heap, l: Local) {
    SegAt(h, l.topOld.seg).next == NIL
  }

  ghost predicate PopInv(h: Heap, t: nat, l: Local) {
    && !l.push
    && match l.pc
       case PopReadTop => true
       case PopScan => WasTop(h, l.topOld) && l.i < h.k && l.found.None?
       case PopCheckTop => WasTop(h, l.topOld) && Found(h, l, false)
       case PopReadTop2 => Found(h, l, false) && l.found.Some?
       case PopCas => Found(h, l, false) && l.found.Some? && 0 <= l.topCurrent.seg < |h.segs|
       case PopReadNext => WasTop(h, l.topOld)
       case PopCheckTop2 =>
         WasTop(h, l.topOld) && Last(h, l) && AllEmpty(l.snap, h.k) && TopLe(l.topOld, l.snapTop) && TopLe(l.snapTop, h.top)
       case _ => false
  }

  // is_empty

  /** Slot `i` as recorded by the first pass was empty, and has only got newer. */
  ghost predicate RecordOk(h: Heap, l: Local, i: nat) {
    i in l.seen ==> i in l.records && l.records[i].value == NULL && Newer(l.records[i], SlotAt(h, l.topOld.seg, i))
  }

  /** The snapshot of slot `i` was taken between what the first pass recorded and now. */
  ghost predicate SnapOk(h: Heap, l: Local, i: nat) {
    i < h.k ==>
      && i in l.seen && i in l.records && l.records[i].value == NULL
      && i < |l.snap| && Newer(l.records[i], l.snap[i]) && Newer(l.snap[i], SlotAt(h, l.topOld.seg, i))
  }

  /** The slots a pass has gone over. */
  ghost predicate Seen(h: Heap, l: Local) {
    forall j: nat {:trigger Visit(l.start, j, h.k)} :: j < l.i ==> h.k > 0 && Visit(l.start, j, h.k) in l.seen
  }

  /** The slots the second pass has found unchanged were empty in the snapshot. */
  ghost predicate Verified(h: Heap, l: Local) {
    forall j: nat {:trigger Visit(l.start, j, h.k)} :: j < l.i ==>
      h.k > 0 && Visit(l.start, j, h.k) < |l.snap| && l.snap[Visit(l.start, j, h.k)].value == NULL
  }

  ghost predicate AllEmpty(slots: seq<Slot>, k: nat) {
    |slots| == k && forall i {:trigger slots[i]} :: 0 <= i < k ==> slots[i].value == NULL
  }

  /** Where is_empty was called. */
  ghost predicate EmptyContext(h: Heap, t: nat, l: Local) {
    && !l.push && WasTop(h, l.topOld)
    && if l.removing then !Last(h, l) && Scanned(h, l.topOld, l.seen) else Last(h, l)
  }

  ghost predicate EmptyInv(h: Heap, t: nat, l: Local) {
    && EmptyContext(h, t, l) && l.i < h.k
    && match l.pc
       case EmptyFirst => Seen(h, l) && forall i: nat {:trigger RecordOk(h, l, i)} :: RecordOk(h, l, i)
       case EmptySecond =>
         && Verified(h, l) && (forall i: nat {:trigger SnapOk(h, l, i)} :: SnapOk(h, l, i)) && |l.snap| == h.k
         && TopLe(l.topOld, l.snapTop) && TopLe(l.snapTop, h.top)
       case _ => false
  }

  ghost predicate SeenAll(h: Heap, l: Local) {
    forall i: nat {:trigger i in l.seen} :: i < h.k ==> i in l.seen
  }

  ghost predicate RemoveInv(h: Heap, t: nat, l: Local) {
    && !l.push && WasTop(h, l.topOld)
    && match l.pc
       case RmReadTop => true
       case RmReadNext => 0 <= l.topCurrent.seg < |h.segs| && TopLe(l.topOld, l.topCurrent) && TopLe(l.topCurrent, h.top)
       case RmCheckTop =>
         && TopLe(l.topOld, l.topCurrent) && TopLe(l.topCurrent, h.top) && l.next == SegAt(h, l.topCurrent.seg).next
         && 0 <= l.topCurrent.seg < |h.segs|
       case RmAdd => !Last(h, l)
       case RmReadNext2 => !Last(h, l) && Scanned(h, l.topOld, l.seen) && SeenAll(h, l)
       case RmCasTop =>
         && !Last(h, l) && Scanned(h, l.topOld, l.seen) && SeenAll(h, l)
         && l.next == SegAt(h, l.topOld.seg).next
       case RmSub => true
       case _ => false
  }

  /** A push under way whose item is not in a slot. */
  ghost predicate Outside(h: Heap, t: nat, l: Local) {
    && l.push && l.item != NULL && l.item in h.owner && h.owner[l.item] == t
    && l.item !in h.status && l.item !in h.done
  }

  ghost predicate PushInv(h: Heap, t: nat, l: Local) {
    && Outside(h, t, l)
    && match l.pc
       case PushReadTop => true
       case PushScan => WasTop(h, l.topOld) && l.i < h.k && l.found.None?
       case PushCheckTop | AddCheckTop | AddCasTop => WasTop(h, l.topOld) && Found(h, l, true)
       case PushCas =>
         WasTop(h, l.topOld) && Found(h, l, true) && l.found.Some? && l.newItem == Slot(l.item, l.slotOld.aba + 1)
       case _ => false
  }

  /** The item has been taken, or it is in its slot and not safe yet. */
  ghost predicate CommittedInv(h: Heap, t: nat, l: Local) {
    && l.push && l.item != NULL && l.item in h.owner && h.owner[l.item] == t && l.item !in h.done
    && WasTop(h, l.topOld) && l.found.Some? && l.found.value < h.k && l.newItem.value == l.item
    && l.item in h.status
    && (h.status[l.item].Placed? ==>
          && h.status[l.item].seg == l.topOld.seg && h.status[l.item].slot == l.found.value
          && !h.status[l.item].safe
          && SlotAt(h, l.topOld.seg, l.found.value) == l.newItem)
  }

  /** An operation that is about to return. */
  ghost predicate Returning(h: Heap, t: nat, l: Local) {
    if l.push then
      l.result.True? && l.item in h.owner && h.owner[l.item] == t && l.item !in h.done && Safe(h, l.item)
    else
      match l.result
      case TrueValue(v) => Removal(t, l.op, v) in h.log
      case False => AllEmpty(l.snap, h.k) && l.snapTop == l.topOld && 0 <= l.topOld.seg < |h.segs| && Last(h, l)
      case _ => false
  }

  ghost predicate PcInv(h: Heap, t: nat, l: Local) {
    if InPop(l.pc) then PopInv(h, t, l)
    else if InEmpty(l.pc) then EmptyInv(h, t, l)
    else if InRemove(l.pc) then RemoveInv(h, t, l)
    else if InPush(l.pc) then PushInv(h, t, l)
    else if InCommitted(l.pc) then CommittedInv(h, t, l)
    else l.pc.Return? ==> Returning(h, t, l)
  }

  ghost predicate LocalInv(h: Heap, t: nat, l: Local) {
    PcInv(h, t, l) && RemovingAt(h, t, if Outstanding(l) then l.topOld.seg else NIL)
  }

  ghost predicate Inv(s: State) {
    && Core(s.heap)
    && forall t {:trigger s.locals[t]} :: 0 <= t < |s.locals| ==> LocalInv(s.heap, t, s.locals[t])
  }
}
