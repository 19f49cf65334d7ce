/** The timestamped deque buffer: a doubly linked list for every thread, nodes taken logically, end
    pointers moved lazily. */
module TSDequeBuffer {
  import opened Basics
  import opened Timestamps
  import opened TSDequeModel

  /** A walk from the left pointer of thread `t` has come to node `i`. */
  ghost predicate WalkedLeft(v: View, t: nat, i: nat)
    requires Sizes(v) && t < |v.chains|
  {
    forall j {:trigger v.chains[t][j]} :: 0 <= j < i && j < |v.chains[t]| && v.chains[t][j] < |v.items| ==>
      v.items[v.chains[t][j]].taken
  }

  lemma StartLeft(v: View, clock: nat, t: nat) returns (i: nat)
    requires Inv(v, clock, None) && t < |v.chains|
    ensures t < |v.left| && i < |v.chains[t]| && v.chains[t][i] == v.left[t].node < |v.items|
    ensures WalkedLeft(v, t, i)
  {
    hide Linked, Ordered, NothingLost, Stamped;
    AtList(v, clock, None, t);
    i :| 0 <= i < |v.chains[t]| && v.chains[t][i] == v.left[t].node;
  }

  /** What the tests of a walk mean. */
  lemma StepLeft(v: View, clock: nat, t: nat, i: nat)
    requires Inv(v, clock, None) && t < |v.chains| && i < |v.chains[t]| && WalkedLeft(v, t, i)
    ensures var n := v.chains[t][i];
            && n < |v.items| && t < |v.right| && v.right[t].node < |v.items|
            && (v.items[n].right == n <==> i + 1 == |v.chains[t]|)
            && (v.items[n].right != n ==> v.items[n].right == v.chains[t][i + 1] && v.items[n].right < |v.items|)
            && (v.items[n].right != n && v.items[n].taken ==> WalkedLeft(v, t, i + 1))
            && (!v.items[n].taken ==> Leftmost(v, t, Some(n)))
            && (v.items[n].index > v.items[v.right[t].node].index ==> Leftmost(v, t, None))
            && (v.items[n].taken && v.items[n].right == n ==> Leftmost(v, t, None))
            && (v.items[n].right == n || !v.items[n].taken ==> LeftStop(v, t, i))
  {
    hide Ordered, NothingLost, Stamped;
    AtList(v, clock, None, t);
    AtLink(v.items, v.chains[t], i);
  }

  ghost predicate WalkedRight(v: View, t: nat, i: nat)
    requires Sizes(v) && t < |v.chains|
  {
    forall j {:trigger v.chains[t][j]} :: i < j < |v.chains[t]| && v.chains[t][j] < |v.items| ==>
      v.items[v.chains[t][j]].taken
  }

  lemma StartRight(v: View, clock: nat, t: nat) returns (i: nat)
    requires Inv(v, clock, None) && t < |v.chains|
    ensures t < |v.right| && i < |v.chains[t]| && v.chains[t][i] == v.right[t].node < |v.items|
    ensures WalkedRight(v, t, i)
  {
    hide Linked, Ordered, NothingLost, Stamped;
    AtList(v, clock, None, t);
    i :| 0 <= i < |v.chains[t]| && v.chains[t][i] == v.right[t].node;
  }

  lemma StepRight(v: View, clock: nat, t: nat, i: nat)
    requires Inv(v, clock, None) && t < |v.chains| && i < |v.chains[t]| && WalkedRight(v, t, i)
    ensures var n := v.chains[t][i];
            && n < |v.items| && t < |v.left| && v.left[t].node < |v.items|
            && (v.items[n].left == n <==> i == 0)
            && (v.items[n].left != n ==> v.items[n].left == v.chains[t][i - 1] && v.items[n].left < |v.items|)
            && (v.items[n].left != n && v.items[n].taken ==> WalkedRight(v, t, i - 1))
            && (!v.items[n].taken ==> Rightmost(v, t, Some(n)))
            && (v.items[n].index < v.items[v.left[t].node].index ==> Rightmost(v, t, None))
            && (v.items[n].taken && v.items[n].left == n ==> Rightmost(v, t, None))
            && (v.items[n].left == n || !v.items[n].taken ==> RightStop(v, t, i))
  {
    hide Ordered, NothingLost, Stamped;
    AtList(v, clock, None, t);
    AtLink(v.items, v.chains[t], i);
  }

  /** Element `p` has been removed, and nothing else. */
  ghost predicate RemovedAt(before: seq<int>, after: seq<int>, p: nat, element: int) {
    p < |before| && element == before[p] && after == before[..p] + before[p + 1..]
  }

  /** The elimination of a concurrent insertion: element `p` was inserted at the left, and not
      before the removal was invoked. */
  ghost predicate EliminatesLeft(v: View, p: nat, invocation: Time) {
    && p < |v.order| && v.order[p] < |v.items|
    && InsertedLeft(v.items[v.order[p]]) && !IsLater(invocation, v.items[v.order[p]].timestamp)
  }

  /** Element `p` was inserted at the right, and not before the removal was invoked. */
  ghost predicate EliminatesRight(v: View, p: nat, invocation: Time) {
    && p < |v.order| && v.order[p] < |v.items|
    && InsertedRight(v.items[v.order[p]]) && !IsLater(invocation, v.items[v.order[p]].timestamp)
  }

  class Buffer {
    const threads: nat
    const timestamping: AtomicCounterTimestamp
    /** The nodes; a pointer is a position. */
    var items: seq<Item>
    const left: array<Ptr>
    const right: array<Ptr>
    const nextIndex: array<int>
    /** Row `t`: the end pointers thread `t` saw when it last found a list empty. */
    const emptinessCheckLeft: array2<Option<Ptr>>
    const emptinessCheckRight: array2<Option<Ptr>>
    ghost var chains: seq<seq<nat>>
    ghost var owner: seq<nat>
    ghost var order: seq<nat>

    ghost function View(): View
      reads this, left, right, nextIndex
    {
      TSDequeModel.View(items, left[..], right[..], nextIndex[..], chains, owner, order)
    }

    /** The abstract deque. */
    ghost function Contents(): seq<int>
      reads this, left, right, nextIndex
    {
      TSDequeModel.Contents(View())
    }

    ghost predicate Valid(pending: Option<nat>)
      reads this, left, right, nextIndex, timestamping
    {
      && left != right
      && emptinessCheckLeft != emptinessCheckRight
      && left.Length == right.Length == nextIndex.Length == threads
      && emptinessCheckLeft.Length0 == emptinessCheckLeft.Length1 == threads
      && emptinessCheckRight.Length0 == emptinessCheckRight.Length1 == threads
      && Inv(View(), timestamping.clock, pending)
    }

    /** The lists whose end pointers are still those that thread `threadId` saw last. */
    ghost function Unchanged(threadId: nat): set<nat>
      requires threads <= left.Length && threads <= right.Length
      requires threadId < emptinessCheckLeft.Length0 && threads <= emptinessCheckLeft.Length1
      requires threadId < emptinessCheckRight.Length0 && threads <= emptinessCheckRight.Length1
      reads left, right, emptinessCheckLeft, emptinessCheckRight
    {
      set t: nat | t < threads
                   && emptinessCheckLeft[threadId, t] == Some(left[t]) && emptinessCheckRight[threadId, t] == Some(right[t])
    }

    ghost predicate AllUnchanged(threadId: nat)
      requires threads <= left.Length && threads <= right.Length
      requires threadId < emptinessCheckLeft.Length0 && threads <= emptinessCheckLeft.Length1
      requires threadId < emptinessCheckRight.Length0 && threads <= emptinessCheckRight.Length1
      reads left, right, emptinessCheckLeft, emptinessCheckRight
    {
      forall t: nat {:trigger t in Unchanged(threadId)} :: t < threads ==> t in Unchanged(threadId)
    }

    constructor (threads: nat, timestamping: AtomicCounterTimestamp)
      requires timestamping.clock == 1
      ensures this.threads == threads && this.timestamping == timestamping
      ensures fresh(left) && fresh(right) && fresh(nextIndex)
      ensures fresh(emptinessCheckLeft) && fresh(emptinessCheckRight)
      ensures Valid(None) && Contents() == []
    {
      this.threads, this.timestamping := threads, timestamping;
      items := Sentinels(threads);
      left := new Ptr[threads](i requires 0 <= i < threads => Ptr(i, 0));
      right := new Ptr[threads](i requires 0 <= i < threads => Ptr(i, 0));
      nextIndex := new int[threads](i => 1);
      emptinessCheckLeft := new Option<Ptr>[threads, threads]((i, j) => None);
      emptinessCheckRight := new Option<Ptr>[threads, threads]((i, j) => None);
      chains := InitView(threads).chains;
      owner := InitView(threads).owner;
      order := [];
      new;
      InitInv(threads);
      assert left[..] == InitView(threads).left;
      assert right[..] == InitView(threads).right;
      assert nextIndex[..] == InitView(threads).next;
      assert View() == InitView(threads);
    }

    /** The leftmost node of the list of thread `t` that is not taken, if there is one. */
    method GetLeftItem(t: nat) returns (r: Option<nat>)
      requires Valid(None) && t < threads
      ensures Leftmost(View(), t, r)
      ensures r.Some? ==> r.value < |items|
    {
      hide ListOk, NothingLost, Ordered, Stamped, Leftmost, LeftStop;
      ghost var v := View();
      ghost var i: nat := StartLeft(v, timestamping.clock, t);
      StepLeft(v, timestamping.clock, t, i);
      var threshold := items[right[t].node].index;
      var result := left[t].node;
      while true
        invariant i < |chains[t]| && chains[t][i] == result && result < |items|
        invariant WalkedLeft(v, t, i)
        decreases |chains[t]| - i
      {
        StepLeft(v, timestamping.clock, t, i);
        if items[result].index > threshold {
          return None;
        }
        if !items[result].taken {
          return Some(result);
        }
        if items[result].right == result {
          return None;
        }
        result, i := items[result].right, i + 1;
      }
    }

    method GetRightItem(t: nat) returns (r: Option<nat>)
      requires Valid(None) && t < threads
      ensures Rightmost(View(), t, r)
      ensures r.Some? ==> r.value < |items|
    {
      hide ListOk, NothingLost, Ordered, Stamped, Rightmost, RightStop;
      ghost var v := View();
      ghost var i: nat := StartRight(v, timestamping.clock, t);
      StepRight(v, timestamping.clock, t, i);
      var threshold := items[left[t].node].index;
      var result := right[t].node;
      while true
        invariant i < |chains[t]| && chains[t][i] == result && result < |items|
        invariant WalkedRight(v, t, i)
        decreases i
      {
        StepRight(v, timestamping.clock, t, i);
        if items[result].index < threshold {
          return None;
        }
        if !items[result].taken {
          return Some(result);
        }
        if items[result].left == result {
          return None;
        }
        result, i := items[result].left, i - 1;
      }
    }

    /** A new leftmost node, whose timestamp the caller has to set. */
    method InsertLeft(threadId: nat, element: int) returns (id: nat)
      requires Valid(None) && threadId < threads
      modifies this, left, right, nextIndex
      ensures Valid(Some(id)) && id < |items| && !items[id].taken
      ensures Contents() == [element] + old(Contents())
    {
      hide ListOk, NothingLost, Ordered, Stamped, Leftmost, LeftStop, TSDequeModel.Contents;
      ghost var v := View();
      ghost var i: nat := StartLeft(v, timestamping.clock, threadId);
      var index := -nextIndex[threadId];
      nextIndex[threadId] := nextIndex[threadId] + 1;
      var oldLeft := left[threadId];
      var node := oldLeft.node;
      StepLeft(v, timestamping.clock, threadId, i);
      while items[node].right != node && items[node].taken
        invariant i < |chains[threadId]| && chains[threadId][i] == node && node < |items|
        invariant WalkedLeft(v, threadId, i)
        decreases |chains[threadId]| - i
        modifies {}
      {
        StepLeft(v, timestamping.clock, threadId, i);
        node, i := items[node].right, i + 1;
      }
      StepLeft(v, timestamping.clock, threadId, i);
      if items[node].right == node {
        right[threadId] := AddNextAba(node, right[threadId], 1);
      }
      assert right[..] == (if i + 1 == |v.chains[threadId]| then v.right[threadId := AddNextAba(node, v.right[threadId], 1)]
                           else v.right)
             && nextIndex[..] == v.next[threadId := v.next[threadId] + 1];
      id := |items|;
      items := items[node := items[node].(left := id)] + [Item(id, node, false, element, Top, index)];
      left[threadId] := AddNextAba(id, oldLeft, 1);
      chains := chains[threadId := [id] + chains[threadId][i..]];
      owner := owner + [threadId];
      order := [id] + order;
      InsertLeftInv(v, timestamping.clock, threadId, i, element);
      assert left[..] == v.left[threadId := AddNextAba(id, v.left[threadId], 1)];
      assert View() == TSDequeModel.InsertLeft(v, threadId, i, element);
    }

    method InsertRight(threadId: nat, element: int) returns (id: nat)
      requires Valid(None) && threadId < threads
      modifies this, left, right, nextIndex
      ensures Valid(Some(id)) && id < |items| && !items[id].taken
      ensures Contents() == old(Contents()) + [element]
    {
      hide ListOk, NothingLost, Ordered, Stamped, Rightmost, RightStop, TSDequeModel.Contents;
      ghost var v := View();
      ghost var i: nat := StartRight(v, timestamping.clock, threadId);
      var index := nextIndex[threadId];
      nextIndex[threadId] := nextIndex[threadId] + 1;
      var oldRight := right[threadId];
      var node := oldRight.node;
      StepRight(v, timestamping.clock, threadId, i);
      while items[node].left != node && items[node].taken
        invariant i < |chains[threadId]| && chains[threadId][i] == node && node < |items|
        invariant WalkedRight(v, threadId, i)
        decreases i
        modifies {}
      {
        StepRight(v, timestamping.clock, threadId, i);
        node, i := items[node].left, i - 1;
      }
      StepRight(v, timestamping.clock, threadId, i);
      if items[node].left == node {
        left[threadId] := AddNextAba(node, left[threadId], 1);
      }
      assert left[..] == (if i == 0 then v.left[threadId := AddNextAba(node, v.left[threadId], 1)] else v.left)
             && nextIndex[..] == v.next[threadId := v.next[threadId] + 1];
      id := |items|;
      items := items[node := items[node].(right := id)] + [Item(node, id, false, element, Top, index)];
      right[threadId] := AddNextAba(id, oldRight, 1);
      chains := chains[threadId := chains[threadId][..i + 1] + [id]];
      owner := owner + [threadId];
      order := order + [id];
      InsertRightInv(v, timestamping.clock, threadId, i, element);
      assert right[..] == v.right[threadId := AddNextAba(id, v.right[threadId], 1)];
      assert View() == TSDequeModel.InsertRight(v, threadId, i, element);
    }

    /** The clock's `set_timestamp` on the timestamp of a node. */
    method SetTimestamp(id: nat)
      requires Valid(Some(id)) && id < |items| && !items[id].taken
      modifies this, timestamping
      ensures Valid(None) && Contents() == old(Contents())
      ensures timestamping.clock == old(timestamping.clock) + 1
    {
      hide ListOk, NothingLost, Ordered, Stamped, TSDequeModel.Contents;
      ghost var v := View();
      StampInv(v, timestamping.clock, id);
      var t := timestamping.NextTimestamp();
      items := items[id := items[id].(timestamp := t)];
      assert View() == Stamp(v, id, t);
    }

    /** Takes a node found at the left end of its list; the attempt to move the left pointer may fail
        for no reason. */
    method TakeLeft(result: nat, bufferIndex: nat, oldLeft: Ptr) returns (element: int, ghost p: nat)
      requires Valid(None) && bufferIndex < threads
      requires Leftmost(View(), bufferIndex, Some(result)) && oldLeft == left[bufferIndex]
      modifies this, left
      ensures Valid(None) && RemovedAt(old(Contents()), Contents(), p, element)
      ensures p < |old(Contents())| == |old(order)| && old(order)[p] == result && (old(order)[0] == result ==> p == 0)
    {
      ghost var v := View();
      p := PositionOf(v, timestamping.clock, result);
      LeftmostMove(v, timestamping.clock, bufferIndex, p, AddNextAba(result, oldLeft, 0));
      hide ListOk, NothingLost, Ordered, Stamped, Leftmost, LeftMove, RightMove, TSDequeModel.Contents;
      items := items[result := items[result].(taken := true)];
      var spurious: bool := *;
      if !spurious && left[bufferIndex] == oldLeft {
        left[bufferIndex] := AddNextAba(result, oldLeft, 0);
      }
      element := items[result].data;
      order := order[..p] + order[p + 1..];
      TakeInv(v, timestamping.clock, p, left[bufferIndex], v.right[bufferIndex]);
      assert left[..] == v.left[bufferIndex := left[bufferIndex]];
      assert View() == Take(v, p, left[bufferIndex], v.right[bufferIndex]);
    }

    /** Takes a node found at the right end of its list; the attempt to move the right pointer may fail
        for no reason. */
    method TakeRight(result: nat, bufferIndex: nat, oldRight: Ptr) returns (element: int, ghost p: nat)
      requires Valid(None) && bufferIndex < threads
      requires Rightmost(View(), bufferIndex, Some(result)) && oldRight == right[bufferIndex]
      modifies this, right
      ensures Valid(None) && RemovedAt(old(Contents()), Contents(), p, element)
      ensures p < |old(Contents())| == |old(order)| && old(order)[p] == result && (old(order)[|old(order)| - 1] == result ==> p == |old(order)| - 1)
    {
      ghost var v := View();
      p := PositionOf(v, timestamping.clock, result);
      RightmostMove(v, timestamping.clock, bufferIndex, p, AddNextAba(result, oldRight, 0));
      hide ListOk, NothingLost, Ordered, Stamped, Rightmost, LeftMove, RightMove, TSDequeModel.Contents;
      items := items[result := items[result].(taken := true)];
      var spurious: bool := *;
      if !spurious && right[bufferIndex] == oldRight {
        right[bufferIndex] := AddNextAba(result, oldRight, 0);
      }
      element := items[result].data;
      order := order[..p] + order[p + 1..];
      TakeInv(v, timestamping.clock, p, v.left[bufferIndex], right[bufferIndex]);
      assert right[..] == v.right[bufferIndex := right[bufferIndex]];
      assert View() == Take(v, p, v.left[bufferIndex], right[bufferIndex]);
    }

    /** Remembers the end pointers of list `t`, and tells whether they are those seen last. */
    method CheckEnds(threadId: nat, t: nat, l: Ptr, r: Ptr) returns (same: bool)
      requires Valid(None) && threadId < threads && t < threads && l == left[t] && r == right[t]
      modifies emptinessCheckLeft, emptinessCheckRight
      ensures same <==> t in old(Unchanged(threadId))
      ensures Unchanged(threadId) == old(Unchanged(threadId)) + {t}
    {
      same := true;
      if emptinessCheckLeft[threadId, t] != Some(l) {
        same := false;
        emptinessCheckLeft[threadId, t] := Some(l);
      }
      if emptinessCheckRight[threadId, t] != Some(r) {
        same := false;
        emptinessCheckRight[threadId, t] := Some(r);
      }
    }

    /** One attempt to remove a leftmost node. It takes node `p` of the deque, counted from the left;
        with an invocation time that is not in the past that is the first one. When the deque is empty
        the answer is false if nothing has happened since this thread last looked. */
    method TryRemoveLeft(threadId: nat, invocation: Time) returns (ok: bool, element: int, ghost p: nat)
      requires Valid(None) && threadId < threads
      modifies this, left, emptinessCheckLeft, emptinessCheckRight
      ensures Valid(None)
      ensures old(Contents()) == [] ==> Contents() == [] && element == NULL
      ensures old(Contents()) == [] ==> AllUnchanged(threadId) && (ok <==> !old(AllUnchanged(threadId)))
      ensures old(Contents()) != [] ==> ok && RemovedAt(old(Contents()), Contents(), p, element)
      ensures old(Contents()) != [] ==> p == 0 || EliminatesLeft(old(View()), p, invocation)
    {
      hide ListOk, NothingLost, Ordered, Stamped, Leftmost, Best, Visit, IsMoreLeft, Unchanged, RemovedAt, TSDequeModel.Contents;
      ghost var v := View();
      var empty := true;
      var result: Option<nat> := None;
      var bufferIndex: nat := 0;
      var timestamp := Tick(0);
      var oldLeft := Ptr(0, 0);
      var startTime := timestamping.ReadTime();
      var start: nat := *;
      ghost var visited: set<nat> := {};
      p := 0;
      BestOfNone(v);
      for i := 0 to threads
        invariant Valid(None) && View() == v && p == 0
        invariant forall j: nat {:trigger Visit(start, j, threads)} :: j < i ==> Visit(start, j, threads) in visited
        invariant Best(v, visited, result)
        invariant forall t: nat {:trigger t in visited} :: t in visited ==> t < threads
        invariant result.Some? ==> bufferIndex < threads && Leftmost(v, bufferIndex, result) && oldLeft == left[bufferIndex]
        invariant result.Some? ==> result.value < |items| && timestamp == items[result.value].timestamp
        invariant result.None? ==> Unchanged(threadId) == old(Unchanged(threadId)) + visited
        invariant empty <==> result.None? && visited <= old(Unchanged(threadId))
      {
        var tmp := Visit(start, i, threads);
        var tmpLeft := left[tmp];
        var item := GetLeftItem(tmp);
        BestStep(v, timestamping.clock, visited, result, tmp, item);
        visited := visited + {tmp};
        if item.Some? {
          empty := false;
          var itemTimestamp := items[item.value].timestamp;
          if result.None? || IsMoreLeft(items[item.value], itemTimestamp, items[result.value], timestamp) {
            result, bufferIndex, timestamp, oldLeft := item, tmp, itemTimestamp, tmpLeft;
            if InsertedLeft(items[result.value]) && !IsLater(invocation, timestamp) {
              if !items[result.value].taken {
                element, p := TakeLeft(result.value, bufferIndex, oldLeft);
                return true, element, p;
              }
            }
          }
        } else {
          var same := CheckEnds(threadId, tmp, tmpLeft, right[tmp]);
          if !same {
            empty := false;
          }
        }
      }
      forall t: nat | t < threads
        ensures t in visited
      {
        var j := VisitsAll(start, threads, t);
      }
      BestOfAll(v, timestamping.clock, visited, result);
      if result.Some? {
        BestFacts(v, timestamping.clock, visited, result);
        if !IsLater(timestamp, startTime) {
          if !items[result.value].taken {
            element, p := TakeLeft(result.value, bufferIndex, oldLeft);
            return true, element, p;
          }
        }
      }
      return !empty, NULL, p;
    }

    /** One attempt to remove a rightmost node. It takes node `p` of the deque, counted from the left;
        with an invocation time that is not in the past that is the last one. When the deque is empty
        the answer is false if nothing has happened since this thread last looked. */
    method TryRemoveRight(threadId: nat, invocation: Time) returns (ok: bool, element: int, ghost p: nat)
      requires Valid(None) && threadId < threads
      modifies this, right, emptinessCheckLeft, emptinessCheckRight
      ensures Valid(None)
      ensures old(Contents()) == [] ==> Contents() == [] && element == NULL
      ensures old(Contents()) == [] ==> AllUnchanged(threadId) && (ok <==> !old(AllUnchanged(threadId)))
      ensures old(Contents()) != [] ==> ok && RemovedAt(old(Contents()), Contents(), p, element)
      ensures old(Contents()) != [] ==> p == |old(Contents())| - 1 || EliminatesRight(old(View()), p, invocation)
    {
      hide ListOk, NothingLost, Ordered, Stamped, Rightmost, BestRight, Visit, IsMoreRight, Unchanged, RemovedAt, TSDequeModel.Contents;
      ghost var v := View();
      var empty := true;
      var result: Option<nat> := None;
      var bufferIndex: nat := 0;
      var timestamp := Tick(0);
      var oldRight := Ptr(0, 0);
      var startTime := timestamping.ReadTime();
      var start: nat := *;
      ghost var visited: set<nat> := {};
      p := 0;
      BestRightOfNone(v);
      for i := 0 to threads
        invariant Valid(None) && View() == v && p == 0
        invariant forall j: nat {:trigger Visit(start, j, threads)} :: j < i ==> Visit(start, j, threads) in visited
        invariant BestRight(v, visited, result)
        invariant forall t: nat {:trigger t in visited} :: t in visited ==> t < threads
        invariant result.Some? ==> bufferIndex < threads && Rightmost(v, bufferIndex, result) && oldRight == right[bufferIndex]
        invariant result.Some? ==> result.value < |items| && timestamp == items[result.value].timestamp
        invariant result.None? ==> Unchanged(threadId) == old(Unchanged(threadId)) + visited
        invariant empty <==> result.None? && visited <= old(Unchanged(threadId))
      {
        var tmp := Visit(start, i, threads);
        var tmpRight := right[tmp];
        var item := GetRightItem(tmp);
        BestRightStep(v, timestamping.clock, visited, result, tmp, item);
        visited := visited + {tmp};
        if item.Some? {
          empty := false;
          var itemTimestamp := items[item.value].timestamp;
          if result.None? || IsMoreRight(items[item.value], itemTimestamp, items[result.value], timestamp) {
            result, bufferIndex, timestamp, oldRight := item, tmp, itemTimestamp, tmpRight;
            if InsertedRight(items[result.value]) && !IsLater(invocation, timestamp) {
              if !items[result.value].taken {
                element, p := TakeRight(result.value, bufferIndex, oldRight);
                return true, element, p;
              }
            }
          }
        } else {
          var same := CheckEnds(threadId, tmp, left[tmp], tmpRight);
          if !same {
            empty := false;
          }
        }
      }
      forall t: nat | t < threads
        ensures t in visited
      {
        var j := VisitsAll(start, threads, t);
      }
      BestRightOfAll(v, timestamping.clock, visited, result);
      if result.Some? {
        BestRightFacts(v, timestamping.clock, visited, result);
        if !IsLater(timestamp, startTime) {
          if !items[result.value].taken {
            element, p := TakeRight(result.value, bufferIndex, oldRight);
            return true, element, p;
          }
        }
      }
      return !empty, NULL, p;
    }
  }

  lemma BestFacts(v: View, clock: nat, visited: set<nat>, r: Option<nat>)
    requires Inv(v, clock, None) && Best(v, visited, r) && r.Some?
    ensures r.value < |v.items| && !v.items[r.value].taken
    ensures v.items[r.value].timestamp.Tick? && v.items[r.value].timestamp.value < clock
  {
  }

  lemma BestRightFacts(v: View, clock: nat, visited: set<nat>, r: Option<nat>)
    requires Inv(v, clock, None) && BestRight(v, visited, r) && r.Some?
    ensures r.value < |v.items| && !v.items[r.value].taken
    ensures v.items[r.value].timestamp.Tick? && v.items[r.value].timestamp.value < clock
  {
    MirrorInv(v, clock, None);
    BestFacts(Mirror(v), clock, visited, r);
    assert Mirror(v).items[r.value] == Flip(v.items[r.value]);
  }

  lemma BestOfNone(v: View)
    requires Sizes(v)
    ensures Best(v, {}, None)
  {
  }

  lemma BestRightOfNone(v: View)
    requires Sizes(v)
    ensures BestRight(v, {}, None)
  {
  }

  lemma PositionOf(v: View, clock: nat, x: nat) returns (p: nat)
    requires Inv(v, clock, None) && x < |v.items| && !v.items[x].taken
    ensures p < |v.order| == |TSDequeModel.Contents(v)| && v.order[p] == x
    ensures v.order[0] == x ==> p == 0
    ensures v.order[|v.order| - 1] == x ==> p == |v.order| - 1
  {
    hide ListOk, NothingLost, Stamped;
    assert x in v.order;
    p :| 0 <= p < |v.order| && v.order[p] == x;
    if v.order[0] == x {
      OrderUnique(v, p, 0);
    }
    if v.order[|v.order| - 1] == x {
      OrderUnique(v, p, |v.order| - 1);
    }
  }

  lemma LeftmostMove(v: View, clock: nat, t: nat, p: nat, l: Ptr)
    requires Inv(v, clock, None) && t < |v.chains| && p < |v.order|
    requires Leftmost(v, t, Some(v.order[p])) && l.node == v.order[p]
    ensures AtOrder(v, p) && v.owner[v.order[p]] == t
    ensures LeftMove(v, v.order[p], l) && LeftMove(v, v.order[p], v.left[t]) && RightMove(v, v.order[p], v.right[t])
    ensures p < |TSDequeModel.Contents(v)| && TSDequeModel.Contents(v)[p] == v.items[v.order[p]].data
  {
    hide Linked, Sorted, Between, Ordered, Stamped;
    OrderFacts(v, clock, None, p);
    AtList(v, clock, None, t);
  }

  lemma RightmostMove(v: View, clock: nat, t: nat, p: nat, r: Ptr)
    requires Inv(v, clock, None) && t < |v.chains| && p < |v.order|
    requires Rightmost(v, t, Some(v.order[p])) && r.node == v.order[p]
    ensures AtOrder(v, p) && v.owner[v.order[p]] == t
    ensures RightMove(v, v.order[p], r) && RightMove(v, v.order[p], v.right[t]) && LeftMove(v, v.order[p], v.left[t])
    ensures p < |TSDequeModel.Contents(v)| && TSDequeModel.Contents(v)[p] == v.items[v.order[p]].data
  {
    hide Linked, Sorted, Between, Ordered, Stamped;
    OrderFacts(v, clock, None, p);
    AtList(v, clock, None, t);
  }
}
