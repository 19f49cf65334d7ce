/** What every step of the k-FIFO queue keeps: an invariant of shared memory, what each thread knows
    at each program counter, and the relation the steps of the other threads stay within. */
module KFifoInvariant {
  import opened Basics
  import opened Segments
  import opened KFifoModel

  // ------------------------------------------------------------------ shared memory

  ghost predicate SegOk(h: Heap, s: nat)
    requires s < |h.segs|
  {
    && |h.segs[s].items| == h.k
    && h.segs[s].next == (if s + 1 < |h.segs| then Ptr(s + 1, 1) else Ptr(NIL, 0))
    && (h.segs[s].deleted ==> s < h.tail.seg && s <= h.head.seg)
    && (s < h.head.seg ==> h.segs[s].deleted)
  }

  /** The segments are linked in order, head <= tail <= last with at most one segment beyond tail; a
      segment that is deleted is behind tail and not beyond head, and every segment behind head is
      deleted. */
  ghost predicate Shape(h: Heap) {
    && h.k > 0
    && 0 <= h.head.seg <= h.tail.seg < |h.segs| <= h.tail.seg + 2
    && forall s: nat {:trigger h.segs[s]} :: s < |h.segs| ==> SegOk(h, s)
  }

  /** Item `x` is where its status says; it is not in a segment lost with head, and if it was in its
      segment before head arrived, the segment is not deleted. */
  ghost predicate ItemOk(h: Heap, x: int) {
    x in h.status ==>
      && x in h.owner && x != NULL
      && match h.status[x]
         case Taken => true
         case Placed(s, i, prot) =>
           && s <= h.tail.seg && i < h.k
           && SlotAt(h, s, i).value == x
           && (prot.Ahead? ==> s < |h.segs| && !h.segs[s].deleted)
           && (!prot.Unsure? ==> s >= h.head.seg)
  }

  /** A slot holds NULL or an item whose status says so. */
  ghost predicate SlotOk(h: Heap, s: nat, i: nat) {
    var x := SlotAt(h, s, i).value;
    x != NULL ==> x in h.status && h.status[x].Placed? && h.status[x].seg == s && h.status[x].slot == i
  }

  ghost predicate Items(h: Heap) {
    && (forall x {:trigger ItemOk(h, x)} :: ItemOk(h, x))
    && (forall s: nat, i: nat {:trigger SlotOk(h, s, i)} :: SlotOk(h, s, i))
  }

  /** The items taken are those in the log, once each; a completed enqueue's item is taken or safe. */
  ghost predicate History(h: Heap) {
    && (forall j {:trigger h.log[j]} :: 0 <= j < |h.log| ==> h.log[j].item in h.status && h.status[h.log[j].item].Taken?)
    && (forall i, j {:trigger h.log[i], h.log[j]} :: 0 <= i < j < |h.log| ==> h.log[i].item != h.log[j].item)
    && (forall x {:trigger x in h.status} :: x in h.status && h.status[x].Taken? ==>
          exists j :: 0 <= j < |h.log| && h.log[j].item == x)
    && (forall x {:trigger x in h.done} :: x in h.done ==> Safe(h, x))
  }

  ghost predicate Safe(h: Heap, x: int) {
    x in h.status && (h.status[x].Placed? ==> !h.status[x].prot.Unsure?)
  }

  ghost predicate Core(h: Heap) {
    Shape(h) && Items(h) && History(h)
  }

  lemma AtItem(h: Heap, x: int)
    requires Items(h)
    ensures ItemOk(h, x)
  {
  }

  lemma AtSlot(h: Heap, s: nat, i: nat)
    requires Items(h)
    ensures SlotOk(h, s, i)
  {
  }

  // ------------------------------------------------------------------ interference

  /** What the steps of other threads may do to item `x` of this thread: a dequeue may take it. */
  ghost predicate OwnStep(h: Heap, h': Heap, x: int) {
    && (x in h'.done ==> x in h.done)
    && (x !in h.status ==> x !in h'.status)
    && (x in h.status ==>
          && x in h'.status
          && (h'.status[x] == h.status[x] || h'.status[x].Taken?)
          && (h'.status[x].Placed? ==>
                SlotAt(h', h.status[x].seg, h.status[x].slot) == SlotAt(h, h.status[x].seg, h.status[x].slot)))
  }

  /** What any step may do to the protection of item `x`: an item becomes safe in its slot only while
      head is behind its segment, or by a change of head. */
  ghost predicate ProtStep(h: Heap, h': Heap, x: int) {
    x in h'.status && h'.status[x].Placed? && !h'.status[x].prot.Unsure? ==>
      && x in h.status && h.status[x].Placed?
      && h.status[x].seg == h'.status[x].seg && h.status[x].slot == h'.status[x].slot
      && (h.status[x] == h'.status[x]
          || (if h'.status[x].prot.Ahead? then h.head.seg < h'.status[x].seg else h'.head != h.head))
  }

  ghost predicate SegStep(h: Heap, h': Heap, s: nat) {
    s < |h.segs| <= |h'.segs| ==>
      && (h.segs[s].deleted ==> h'.segs[s].deleted)
      && (h.segs[s].next.seg != NIL ==> h'.segs[s].next == h.segs[s].next)
  }

  /** The steps of threads other than `t` stay within this relation. */
  ghost predicate Rely(h: Heap, h': Heap, t: nat) {
    && h'.k == h.k && |h.segs| <= |h'.segs|
    && (h'.head == h.head || (h'.head.aba > h.head.aba && h'.head.seg >= h.head.seg))
    && (h'.tail == h.tail || h'.tail.seg > h.tail.seg)
    && (forall s: nat {:trigger SegStep(h, h', s)} :: SegStep(h, h', s))
    && (forall x {:trigger OwnStep(h, h', x)} :: x in h.owner && h.owner[x] == t ==> OwnStep(h, h', x))
    && (forall x {:trigger ProtStep(h, h', x)} :: ProtStep(h, h', x))
    && (forall x {:trigger x in h'.owner} {:trigger x in h.owner} :: x in h.owner ==> x in h'.owner && h'.owner[x] == h.owner[x])
    && |h.log| <= |h'.log| && h.log == h'.log[..|h.log|]
  }

  // ------------------------------------------------------------------ what a thread knows

  /** A value of head read earlier. */
  ghost predicate WasHead(h: Heap, p: Ptr) {
    0 <= p.seg <= h.head.seg && p.aba <= h.head.aba && (p.aba == h.head.aba ==> p == h.head)
  }

  /** A value of tail read earlier. */
  ghost predicate WasTail(h: Heap, p: Ptr) {
    0 <= p.seg <= h.tail.seg && (p.seg == h.tail.seg ==> p == h.tail)
  }

  /** Item `x` would not be lost with the segment a removal that read head as `p` has in mind. */
  ghost predicate Passed(h: Heap, p: Ptr, seen: set<nat>, x: int) {
    x in h.status && h.status[x].Placed? && h.status[x].seg == p.seg && h.status[x].slot in seen ==>
      !h.status[x].prot.Ahead? && (h.head == p ==> h.status[x].prot.Unsure?)
  }

  /** The slots a dequeue has passed hold no item it must not lose. */
  ghost predicate Scanned(h: Heap, p: Ptr, seen: set<nat>) {
    WasHead(h, p) && forall x {:trigger Passed(h, p, seen, x)} :: Passed(h, p, seen, x)
  }

  /** The scan has passed these slots. */
  ghost predicate Seen(h: Heap, l: Local) {
    l.i <= h.k && h.k > 0 && forall j: nat {:trigger Visit(l.start, j, h.k)} :: j < l.i ==> Visit(l.start, j, h.k) in l.seen
  }

  ghost predicate SeenAll(h: Heap, l: Local) {
    forall i: nat {:trigger i in l.seen} :: i < h.k ==> i in l.seen
  }

  ghost predicate Found(h: Heap, l: Local) {
    l.found.Some? ==> l.found.value < h.k && l.slotOld.value != NULL
  }

  ghost predicate DequeueInv(h: Heap, t: nat, l: Local) {
    && !l.enqueue
    && match l.pc
       case DqReadHead => true
       case DqScan => Scanned(h, l.headOld, l.seen) && Seen(h, l) && l.i < h.k && l.found.None?
       case DqReadTail => Scanned(h, l.headOld, l.seen) && Found(h, l) && (l.found.None? ==> SeenAll(h, l))
       case DqCheckHead =>
         && Scanned(h, l.headOld, l.seen) && Found(h, l) && WasTail(h, l.tailOld)
         && (l.found.None? ==> SeenAll(h, l))
         && (l.found.None? && h.head == l.headOld && l.tailOld.seg == l.headOld.seg ==> l.sawEmpty)
         && (h.head == l.headOld ==> l.headOld.seg <= l.tailOld.seg)
       case DqCas => WasHead(h, l.headOld) && Found(h, l) && l.found.Some?
       case _ => false
  }

  /** An enqueue under way whose item is not in a slot. */
  ghost predicate Outside(h: Heap, t: nat, l: Local) {
    && l.enqueue && l.item != NULL && l.item in h.owner && h.owner[l.item] == t
    && l.item !in h.status && l.item !in h.done
  }

  ghost predicate EmptyFound(h: Heap, l: Local) {
    l.found.Some? ==> l.found.value < h.k && l.slotOld.value == NULL
  }

  ghost predicate EnqueueInv(h: Heap, t: nat, l: Local) {
    && Outside(h, t, l)
    && match l.pc
       case EqReadTail => true
       case EqReadHead => WasTail(h, l.tailOld)
       case EqScan => WasTail(h, l.tailOld) && l.i < h.k && l.found.None?
       case EqCheckTail => WasTail(h, l.tailOld) && EmptyFound(h, l)
       case EqCas =>
         && WasTail(h, l.tailOld) && EmptyFound(h, l) && l.found.Some?
         && l.newItem == Slot(l.item, l.slotOld.aba + 1)
       case _ => false
  }

  /** The item has been taken, or it is in its slot with protection in `prots`. */
  ghost predicate Inside(h: Heap, t: nat, l: Local, prots: set<Prot>) {
    && l.enqueue && l.item != NULL && l.item in h.owner && h.owner[l.item] == t && l.item !in h.done
    && WasTail(h, l.tailOld) && l.found.Some? && l.found.value < h.k && l.newItem.value == l.item
    && l.item in h.status
    && (h.status[l.item].Placed? ==>
          && h.status[l.item].seg == l.tailOld.seg && h.status[l.item].slot == l.found.value
          && h.status[l.item].prot in prots
          && SlotAt(h, l.tailOld.seg, l.found.value) == l.newItem)
  }

  ghost predicate IsDeleted(h: Heap, s: int) {
    0 <= s < |h.segs| && h.segs[s].deleted
  }

  ghost predicate CommittedInv(h: Heap, t: nat, l: Local) {
    match l.pc
    case CmCheckSlot | CmReadHead | CmRetract => Inside(h, t, l, {Unsure})
    case CmReadDeleted =>
      && WasHead(h, l.headCurrent)
      && Inside(h, t, l, if l.headCurrent.seg < l.tailOld.seg then {Ahead} else {Unsure})
      && (l.headCurrent.seg > l.tailOld.seg ==> IsDeleted(h, l.tailOld.seg))
    case CmCasHead =>
      WasHead(h, l.headCurrent) && Inside(h, t, l, {Unsure}) && l.headCurrent.seg == l.tailOld.seg
    case CmReadDeleted2 => Inside(h, t, l, {Ahead})
    case _ => false
  }

  /** Where advance_tail returns to. */
  ghost predicate TailContext(h: Heap, t: nat, l: Local) {
    && WasTail(h, l.tailOld)
    && if l.enqueue then Outside(h, t, l) else WasHead(h, l.headOld) && Found(h, l) && l.found.Some?
  }

  /** The next pointer of segment `s` read earlier. */
  ghost predicate NextOf(h: Heap, s: int, next: Ptr) {
    next == Ptr(NIL, 0) || (next == Ptr(s + 1, 1) && s + 1 < |h.segs|)
  }

  ghost predicate AdvanceTailInv(h: Heap, t: nat, l: Local) {
    && TailContext(h, t, l)
    && match l.pc
       case ATReadTail | ATReadNext => true
       case ATCheckTail => NextOf(h, l.tailOld.seg, l.next)
       case ATCasTail => NextOf(h, l.tailOld.seg, l.next) && l.next.seg != NIL
       case ATCasNext => l.next == Ptr(NIL, 0)
       case ATCasNewTail => l.next.seg == l.tailOld.seg + 1 < |h.segs|
       case _ => false
  }

  /** The segment that advance_head is about to leave holds no item it must not lose. */
  ghost predicate Leaving(h: Heap, l: Local) {
    !l.enqueue && Scanned(h, l.headOld, l.seen) && SeenAll(h, l)
  }

  ghost predicate AdvanceHeadInv(h: Heap, t: nat, l: Local) {
    && Leaving(h, l)
    && (!l.pc.AHReadHead? ==> l.headCurrent == l.headOld)
    && match l.pc
       case AHReadHead | AHReadTail => true
       case AHReadTailNext => WasTail(h, l.tailCurrent) && l.headOld.seg <= l.tailCurrent.seg
       case AHReadHeadNext =>
         WasTail(h, l.tailCurrent) && l.headOld.seg <= l.tailCurrent.seg && NextOf(h, l.tailCurrent.seg, l.next)
       case AHCheckHead =>
         && WasTail(h, l.tailCurrent) && l.headOld.seg <= l.tailCurrent.seg && NextOf(h, l.tailCurrent.seg, l.next)
         && (l.headOld.seg < l.tailCurrent.seg || l.next.seg != NIL ==> l.headNext.seg == l.headOld.seg + 1)
       case AHCheckTail | AHCasTail =>
         && WasTail(h, l.tailCurrent) && l.headOld.seg == l.tailCurrent.seg
         && NextOf(h, l.tailCurrent.seg, l.next) && l.next.seg != NIL && l.headNext.seg == l.headOld.seg + 1
       case AHDelete => l.headOld.seg < h.tail.seg && l.headNext.seg == l.headOld.seg + 1
       case AHCasHead =>
         && l.headOld.seg < h.tail.seg && l.headNext.seg == l.headOld.seg + 1 && IsDeleted(h, l.headOld.seg)
       case _ => false
  }

  /** An operation that is about to return. */
  ghost predicate Returning(h: Heap, t: nat, l: Local) {
    if l.enqueue then
      l.result.True? && l.item in h.owner && h.owner[l.item] == t && l.item !in h.done && Safe(h, l.item)
    else
      match l.result
      case TrueValue(v) => Removal(t, l.op, v) in h.log
      case False => l.sawEmpty
      case _ => false
  }

  ghost predicate LocalInv(h: Heap, t: nat, l: Local) {
    if InDequeue(l.pc) then DequeueInv(h, t, l)
    else if InEnqueue(l.pc) then EnqueueInv(h, t, l)
    else if InCommitted(l.pc) then CommittedInv(h, t, l)
    else if InAdvanceTail(l.pc) then AdvanceTailInv(h, t, l)
    else if InAdvanceHead(l.pc) then AdvanceHeadInv(h, t, l)
    else l.pc.Return? ==> Returning(h, t, l)
  }

  ghost predicate Inv(s: State) {
    && Core(s.heap)
    && forall t {:trigger s.locals[t]} :: 0 <= t < |s.locals| ==> LocalInv(s.heap, t, s.locals[t])
  }
}
