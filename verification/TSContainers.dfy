/** The deque, the queue and the stack over the timestamped deque buffer. Operations run one at a
    time, each on behalf of any thread. */
module TSContainers {
  import opened Basics
  import opened Timestamps
  import opened TSDequeModel
  import opened TSDequeBuffer

  // ------------------------------------------------------------------ the abstract containers

  /** A removal passes over elements that are NULL. */
  function SkipNull(d: seq<int>): (r: seq<int>)
    ensures |r| <= |d| && (r != [] ==> r[0] != NULL)
  {
    if |d| > 0 && d[0] == NULL then SkipNull(d[1..]) else d
  }

  /** Removal of the first element of `before`; `ok` is false exactly if there is none. */
  ghost predicate RemovedFirst(before: seq<int>, after: seq<int>, ok: bool, element: int) {
    var d := SkipNull(before);
    if d == [] then !ok && element == NULL && after == []
    else ok && element == d[0] && after == d[1..]
  }

  /** Removal of the last element. */
  ghost predicate RemovedLast(before: seq<int>, after: seq<int>, ok: bool, element: int) {
    RemovedFirst(Reverse(before), Reverse(after), ok, element)
  }

  lemma {:induction false} NothingButNull(d: seq<int>)
    ensures SkipNull(d) == [] <==> forall i :: 0 <= i < |d| ==> d[i] == NULL
  {
    if |d| > 0 && d[0] == NULL {
      NothingButNull(d[1..]);
      assert forall i :: 1 <= i < |d| ==> d[i] == d[1..][i - 1];
    }
  }

  /** A removal fails exactly if there is nothing but NULL elements. */
  lemma RemovalFails(before: seq<int>, after: seq<int>, ok: bool, element: int)
    requires RemovedFirst(before, after, ok, element) || RemovedLast(before, after, ok, element)
    ensures !ok <==> forall i :: 0 <= i < |before| ==> before[i] == NULL
  {
    NothingButNull(before);
    NothingButNull(Reverse(before));
    assert forall i :: 0 <= i < |before| ==> before[i] == Reverse(before)[|before| - 1 - i];
  }

  /** Removal of the first element of a deque, NULL or not. */
  predicate ExactFirst(before: seq<int>, after: seq<int>, ok: bool, element: int) {
    && (ok <==> before != [])
    && if ok then element == before[0] && after == before[1..] else element == NULL && after == before
  }

  predicate ExactLast(before: seq<int>, after: seq<int>, ok: bool, element: int) {
    && (ok <==> before != [])
    && if ok then element == before[|before| - 1] && after == before[..|before| - 1] else element == NULL && after == before
  }

  lemma MirrorExact(before: seq<int>, after: seq<int>, ok: bool, element: int)
    ensures ExactLast(before, after, ok, element) <==> ExactFirst(Reverse(before), Reverse(after), ok, element)
  {
    assert Reverse(Reverse(before)) == before && Reverse(Reverse(after)) == after;
    if before != [] {
      assert Reverse(before)[1..] == Reverse(before[..|before| - 1]);
      assert Reverse(Reverse(before[..|before| - 1])) == before[..|before| - 1];
    }
  }

  /** A removal is that of a deque if and only if the element at the end is not NULL, or there is none. */
  lemma RemovalIsExact(before: seq<int>, after: seq<int>, ok: bool, element: int)
    ensures RemovedFirst(before, after, ok, element) ==>
              (ExactFirst(before, after, ok, element) <==> before == [] || before[0] != NULL)
    ensures before == [] || before[0] != NULL ==>
              (RemovedFirst(before, after, ok, element) <==> ExactFirst(before, after, ok, element))
    ensures RemovedLast(before, after, ok, element) ==>
              (ExactLast(before, after, ok, element) <==> before == [] || before[|before| - 1] != NULL)
    ensures before == [] || before[|before| - 1] != NULL ==>
              (RemovedLast(before, after, ok, element) <==> ExactLast(before, after, ok, element))
  {
    MirrorExact(before, after, ok, element);
    assert before != [] ==> Reverse(before)[0] == before[|before| - 1];
  }

  /** A NULL element at the end is dropped, together with the next one; alone it passes for the empty deque. */
  lemma NullIsDropped(after: seq<int>, ok: bool, element: int)
    ensures RemovedFirst([NULL, 5], after, ok, element) <==> ok && element == 5 && after == []
    ensures RemovedLast([5, NULL], after, ok, element) <==> ok && element == 5 && after == []
    ensures RemovedFirst([NULL], after, ok, element) <==> !ok && element == NULL && after == []
  {
    assert SkipNull([NULL, 5]) == SkipNull([5]) == [5];
    assert SkipNull([NULL]) == SkipNull([]) == [];
    assert Reverse([5, NULL]) == [NULL, 5];
    assert Reverse(Reverse(after)) == after;
  }

  /** Without NULL elements, the removals are exactly those of a deque. */
  lemma RemovalOfNonNull(before: seq<int>, after: seq<int>, ok: bool, element: int)
    requires NULL !in before
    ensures RemovedFirst(before, after, ok, element) <==> ExactFirst(before, after, ok, element)
    ensures RemovedLast(before, after, ok, element) <==> ExactLast(before, after, ok, element)
  {
    RemovalIsExact(before, after, ok, element);
  }

  lemma RemoveAtFirst(before: seq<int>, after: seq<int>, element: int)
    requires before != [] && RemovedAt(before, after, 0, element)
    ensures before[0] == element && after == before[1..]
  {
  }

  lemma RemoveAtLast(before: seq<int>, after: seq<int>, element: int)
    requires before != [] && RemovedAt(before, after, |before| - 1, element)
    ensures Reverse(before)[0] == element && Reverse(after) == Reverse(before)[1..]
  {
  }

  /** No timestamp in the buffer is later than the present, so nothing is eliminated. */
  lemma NothingToEliminate(v: View, clock: nat, invocation: Time, p: nat)
    requires Inv(v, clock, None) && (invocation == Tick(clock) || invocation == Top)
    ensures !EliminatesLeft(v, p, invocation) && !EliminatesRight(v, p, invocation)
    ensures |TSDequeModel.Contents(v)| == |v.order|
  {
    hide ListOk, NothingLost;
    if p < |v.order| {
      assert v.order[p] in v.order;
    }
  }

  // ------------------------------------------------------------------ the deque

  class TSDeque {
    const timestamping: AtomicCounterTimestamp
    const buffer: Buffer

    ghost predicate Valid()
      reads buffer, buffer.left, buffer.right, buffer.nextIndex, timestamping
    {
      buffer.timestamping == timestamping && buffer.Valid(None)
    }

    ghost function Contents(): seq<int>
      reads buffer, buffer.left, buffer.right, buffer.nextIndex
    {
      buffer.Contents()
    }

    constructor (threads: nat)
      ensures Valid() && Contents() == [] && buffer.threads == threads
    {
      var clock := new AtomicCounterTimestamp();
      timestamping := clock;
      buffer := new Buffer(threads, clock);
    }

    method InsertLeft(threadId: nat, element: int)
      requires Valid() && threadId < buffer.threads
      modifies buffer, buffer.left, buffer.right, buffer.nextIndex, timestamping
      ensures Valid() && Contents() == [element] + old(Contents())
    {
      var item := buffer.InsertLeft(threadId, element);
      buffer.SetTimestamp(item);
    }

    method InsertRight(threadId: nat, element: int)
      requires Valid() && threadId < buffer.threads
      modifies buffer, buffer.left, buffer.right, buffer.nextIndex, timestamping
      ensures Valid() && Contents() == old(Contents()) + [element]
    {
      var item := buffer.InsertRight(threadId, element);
      buffer.SetTimestamp(item);
    }

    method RemoveLeft(threadId: nat) returns (ok: bool, element: int)
      requires Valid() && threadId < buffer.threads
      modifies buffer, buffer.left, buffer.emptinessCheckLeft, buffer.emptinessCheckRight
      ensures Valid() && RemovedFirst(old(Contents()), Contents(), ok, element)
    {
      hide EliminatesLeft, ListOk, NothingLost, Ordered, Stamped, TSDequeModel.Contents;
      var invocation := timestamping.ReadTime();
      while true
        invariant Valid() && invocation == Tick(timestamping.clock)
        invariant SkipNull(Contents()) == SkipNull(old(Contents()))
        decreases |Contents()|, !buffer.AllUnchanged(threadId)
      {
        ghost var p;
        ghost var v := buffer.View();
        ok, element, p := buffer.TryRemoveLeft(threadId, invocation);
        NothingToEliminate(v, timestamping.clock, invocation, p);
        if v.order != [] { RemoveAtFirst(TSDequeModel.Contents(v), Contents(), element); }
        if !ok {
          return false, element;
        }
        if element != NULL {
          return true, element;
        }
      }
    }

    method RemoveRight(threadId: nat) returns (ok: bool, element: int)
      requires Valid() && threadId < buffer.threads
      modifies buffer, buffer.right, buffer.emptinessCheckLeft, buffer.emptinessCheckRight
      ensures Valid() && RemovedLast(old(Contents()), Contents(), ok, element)
    {
      hide EliminatesRight, ListOk, NothingLost, Ordered, Stamped, TSDequeModel.Contents;
      var invocation := timestamping.ReadTime();
      while true
        invariant Valid() && invocation == Tick(timestamping.clock)
        invariant SkipNull(Reverse(Contents())) == SkipNull(Reverse(old(Contents())))
        decreases |Contents()|, !buffer.AllUnchanged(threadId)
      {
        ghost var p;
        ghost var v := buffer.View();
        ok, element, p := buffer.TryRemoveRight(threadId, invocation);
        NothingToEliminate(v, timestamping.clock, invocation, p);
        if v.order != [] { RemoveAtLast(TSDequeModel.Contents(v), Contents(), element); }
        if !ok {
          return false, element;
        }
        if element != NULL {
          return true, element;
        }
      }
    }
  }

  // ------------------------------------------------------------------ the queue

  /** Enqueues at the left, dequeues at the right. */
  class TSQueue {
    const timestamping: AtomicCounterTimestamp
    const buffer: Buffer

    ghost predicate Valid()
      reads buffer, buffer.left, buffer.right, buffer.nextIndex, timestamping
    {
      buffer.timestamping == timestamping && buffer.Valid(None)
    }

    /** The oldest element first. */
    ghost function Contents(): seq<int>
      reads buffer, buffer.left, buffer.right, buffer.nextIndex
    {
      Reverse(buffer.Contents())
    }

    constructor (threads: nat)
      ensures Valid() && Contents() == [] && buffer.threads == threads
    {
      var clock := new AtomicCounterTimestamp();
      timestamping := clock;
      buffer := new Buffer(threads, clock);
    }

    method Enqueue(threadId: nat, element: int)
      requires Valid() && threadId < buffer.threads
      modifies buffer, buffer.left, buffer.right, buffer.nextIndex, timestamping
      ensures Valid() && Contents() == old(Contents()) + [element]
    {
      var item := buffer.InsertLeft(threadId, element);
      buffer.SetTimestamp(item);
    }

    method Dequeue(threadId: nat) returns (ok: bool, element: int)
      requires Valid() && threadId < buffer.threads
      modifies buffer, buffer.right, buffer.emptinessCheckLeft, buffer.emptinessCheckRight
      ensures Valid() && RemovedFirst(old(Contents()), Contents(), ok, element)
    {
      hide EliminatesRight, ListOk, NothingLost, Ordered, Stamped, TSDequeModel.Contents;
      while true
        invariant Valid() && SkipNull(Contents()) == SkipNull(old(Contents()))
        decreases |Contents()|, !buffer.AllUnchanged(threadId)
      {
        ghost var p;
        ghost var v := buffer.View();
        ok, element, p := buffer.TryRemoveRight(threadId, Top);
        NothingToEliminate(v, timestamping.clock, Top, p);
        if v.order != [] { RemoveAtLast(TSDequeModel.Contents(v), buffer.Contents(), element); }
        if !ok {
          return false, element;
        }
        if element != NULL {
          return true, element;
        }
      }
    }
  }

  // ------------------------------------------------------------------ the stack

  /** Pushes and pops at the right. */
  class TSStack {
    const timestamping: AtomicCounterTimestamp
    const buffer: Buffer

    ghost predicate Valid()
      reads buffer, buffer.left, buffer.right, buffer.nextIndex, timestamping
    {
      buffer.timestamping == timestamping && buffer.Valid(None)
    }

    /** The top element last. */
    ghost function Contents(): seq<int>
      reads buffer, buffer.left, buffer.right, buffer.nextIndex
    {
      buffer.Contents()
    }

    constructor (threads: nat)
      ensures Valid() && Contents() == [] && buffer.threads == threads
    {
      var clock := new AtomicCounterTimestamp();
      timestamping := clock;
      buffer := new Buffer(threads, clock);
    }

    method Push(threadId: nat, element: int)
      requires Valid() && threadId < buffer.threads
      modifies buffer, buffer.left, buffer.right, buffer.nextIndex, timestamping
      ensures Valid() && Contents() == old(Contents()) + [element]
    {
      var item := buffer.InsertRight(threadId, element);
      buffer.SetTimestamp(item);
    }

    method Pop(threadId: nat) returns (ok: bool, element: int)
      requires Valid() && threadId < buffer.threads
      modifies buffer, buffer.right, buffer.emptinessCheckLeft, buffer.emptinessCheckRight
      ensures Valid() && RemovedLast(old(Contents()), Contents(), ok, element)
    {
      hide EliminatesRight, ListOk, NothingLost, Ordered, Stamped, TSDequeModel.Contents;
      var invocation := timestamping.ReadTime();
      while true
        invariant Valid() && invocation == Tick(timestamping.clock)
        invariant SkipNull(Reverse(Contents())) == SkipNull(Reverse(old(Contents())))
        decreases |Contents()|, !buffer.AllUnchanged(threadId)
      {
        ghost var p;
        ghost var v := buffer.View();
        ok, element, p := buffer.TryRemoveRight(threadId, invocation);
        NothingToEliminate(v, timestamping.clock, invocation, p);
        if v.order != [] { RemoveAtLast(TSDequeModel.Contents(v), Contents(), element); }
        if !ok {
          return false, element;
        }
        if element != NULL {
          return true, element;
        }
      }
    }
  }
}
