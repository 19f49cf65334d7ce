/** Every write to shared memory keeps the invariant and stays within the relation the other
    threads rely on. */
module WaitFreeActions {
  import opened Basics
  import opened Histories
  import opened WaitFreeModel
  import opened WaitFreeInvariant

  // ------------------------------------------------------------------ moving tail and head

  lemma ContentsFrame(h: Heap, h': Heap)
    requires Shape(h) && h'.list == h.list && FirstLive(h') == FirstLive(h)
    requires |h.nodes| <= |h'.nodes|
    requires forall n {:trigger h.nodes[n]} {:trigger h'.nodes[n]} :: 0 <= n < |h.nodes| ==> h'.nodes[n].data == h.nodes[n].data
    ensures Contents(h') == Contents(h)
  {
    if FirstLive(h) <= |h.list| {
      var ids := h.list[FirstLive(h)..];
      forall i | 0 <= i < |ids|
        ensures Values(h'.nodes, ids)[i] == Values(h.nodes, ids)[i]
      {
        assert ids[i] == h.list[FirstLive(h) + i];
      }
      assert Values(h'.nodes, ids) == Values(h.nodes, ids);
    }
  }

  lemma SameNodes(h: Heap, h': Heap)
    requires h'.nodes == h.nodes && h'.list == h.list
    ensures NodesGrow(h, h')
  {
  }

  /** Nodes whose claims do not change. */
  lemma SameClaims(h: Heap, h': Heap)
    requires |h.nodes| <= |h'.nodes| && |h.list| <= |h'.list| && h'.list[..|h.list|] == h.list
    requires forall n: nat {:trigger h.nodes[n]} :: n < |h.nodes| ==>
               && h'.nodes[n].data == h.nodes[n].data && h'.nodes[n].enqTid == h.nodes[n].enqTid
               && h'.nodes[n].deqTid == h.nodes[n].deqTid && (h.nodes[n].pos.Some? ==> h'.nodes[n].pos == h.nodes[n].pos)
    ensures NodesGrow(h, h')
  {
    forall n | 0 <= n < |h.nodes| ensures ClaimStep(h, h', n) {}
  }

  lemma AdvanceTailKeeps(h: Heap, n: nat)
    requires HeapInv(h)
    requires |h.list| == h.tail.aba + 2 && n == h.list[h.tail.aba + 1]
    requires h.nodes[n].enqTid < |h.slots| && !h.slots[h.nodes[n].enqTid].desc.pending
    ensures var h' := h.(tail := Ptr(n, h.tail.aba + 1)); HeapInv(h') && Rely(h, h')
  {
    var h' := h.(tail := Ptr(n, h.tail.aba + 1));
    forall i | 0 <= i < |h.list| ensures NextOk(h', i) { AtList(h, i); }
    forall m | 0 <= m < |h.nodes| ensures NodeOk(h', m) { AtNode(h, m); }
    assert Shape(h');
    SameNodes(h, h');
    hide ReplayQueue, NodesGrow;
    forall q | 0 <= q < |h.slots|
      ensures SlotOk(h', q) && SlotStep(h, h', q)
    {
      AtSlot(h, q);
      if h.slots[q].desc.node.Some? {
        AtNode(h, h.slots[q].desc.node.value);
      }
    }
    ContentsFrame(h, h');
  }

  lemma AdvanceHeadKeeps(h: Heap, n: nat)
    requires HeapInv(h)
    requires h.head.aba + 1 < |h.list| && n == h.list[h.head.aba + 1]
    requires h.nodes[h.head.node].deqTid.Some?
    requires h.nodes[h.head.node].deqTid.value < |h.slots|
    requires !h.slots[h.nodes[h.head.node].deqTid.value].desc.pending
    ensures var h' := h.(head := Ptr(n, h.head.aba + 1)); HeapInv(h') && Rely(h, h')
  {
    var h' := h.(head := Ptr(n, h.head.aba + 1));
    assert h.nodes[n].pos == Some(h.head.aba + 1);
    assert h.nodes[n].deqTid.None?;
    assert h.nodes[h.head.node].pos == Some(h.head.aba);
    forall i | 0 <= i < |h.list| ensures NextOk(h', i) { AtList(h, i); }
    forall m | 0 <= m < |h.nodes| ensures NodeOk(h', m) { AtNode(h, m); }
    assert Shape(h');
    SameNodes(h, h');
    hide ReplayQueue, NodesGrow;
    forall m | 0 <= m < |h.nodes| && h.nodes[m].pos.Some? && h.nodes[m].pos.value < h'.head.aba
      ensures h.nodes[m].deqTid.Some?
    {
      AtNode(h, m);
      if h.nodes[m].pos.value == h.head.aba {
        assert m == h.head.node;
      }
    }
    forall q | 0 <= q < |h.slots|
      ensures SlotOk(h', q) && SlotStep(h, h', q)
    {
      AtSlot(h, q);
      if h.slots[q].desc.node.Some? {
        AtNode(h, h.slots[q].desc.node.value);
      }
    }
    ContentsFrame(h, h');
  }

  // ------------------------------------------------------------------ replacing a descriptor

  /** The shared memory facts that do not mention descriptors. */
  lemma ListFrame(h: Heap, h': Heap)
    requires Core(h)
    requires h'.nodes == h.nodes && h'.list == h.list && h'.head == h.head && h'.tail == h.tail
    requires Sizes(h')
    ensures Shape(h') && Claims(h')
    ensures NodesGrow(h, h')
    ensures Contents(h') == Contents(h)
    ensures forall m :: 0 <= m < |h.nodes| ==> Behind(h', m) == Behind(h, m)
  {
    SameNodes(h, h');
    hide NodesGrow;
    forall i | 0 <= i < |h.list| ensures NextOk(h', i) { AtList(h, i); }
    forall m | 0 <= m < |h.nodes| ensures NodeOk(h', m) { AtNode(h, m); }
  }

  /** The descriptors that helpers may install for an operation of thread `q`: the final one of
      an enqueue whose node is linked or of a dequeue that has claimed its node; the final one of a
      dequeue that has seen an empty queue; and one that names a new head. The last two replace
      only a descriptor whose node, if any, is behind head. */
  ghost predicate Replaceable(h: Heap, q: nat, pending: bool, node: Option<nat>)
    requires Core(h) && q < |h.slots|
  {
    var d := h.slots[q].desc;
    || (&& !pending && node == d.node && d.node.Some? && d.node.value < |h.nodes|
        && if d.kind.Enq? then h.nodes[d.node.value].pos.Some? else h.nodes[d.node.value].deqTid == Some(q))
    || (&& d.kind.Deq? && d.pending
        && (d.node.Some? ==> PosAtMost(h, d.node.value, h.head.aba - 1))
        && if pending
           then && node.Some? && PosAtMost(h, node.value, h.head.aba) && PosAtMost(h, node.value, h.tail.aba - 1)
                && h.nodes[node.value].deqTid != Some(q)
           else node.None? && h.sawEmpty[q])
  }

  function Replaced(h: Heap, q: nat, pending: bool, node: Option<nat>): Heap
    requires q < |h.slots|
  {
    var s := h.slots[q];
    SetSlot(h, q, Desc(h.nextDesc, s.desc.phase, pending, s.desc.kind, node), s.aba + 1)
  }

  lemma ReplaceSlotOk(h: Heap, q: nat, pending: bool, node: Option<nat>)
    requires Core(h) && q < |h.slots| && Replaceable(h, q, pending, node)
    ensures var h' := Replaced(h, q, pending, node);
            Shape(h') && Sizes(h') && SlotOk(h', q) && SlotStep(h, h', q)
  {
    var h' := Replaced(h, q, pending, node);
    ListFrame(h, h');
    AtSlot(h, q);
    if node.Some? {
      AtNode(h, node.value);
    }
  }

  /** A slot nothing happens to. */
  lemma SlotFrame(h: Heap, h': Heap, p: nat)
    requires Core(h) && Shape(h') && Sizes(h') && p < |h.slots| == |h'.slots|
    requires h'.head == h.head && h'.tail == h.tail && h'.nextDesc >= h.nextDesc
    requires h'.slots[p] == h.slots[p] && h'.ops[p] == h.ops[p] && h'.lin[p] == h.lin[p]
    requires h.sawEmpty[p] ==> h'.sawEmpty[p]
    requires |h.nodes| <= |h'.nodes|
    requires h.slots[p].desc.node.Some? && h.slots[p].desc.node.value < |h.nodes| ==>
               var m := h.slots[p].desc.node.value;
               h'.nodes[m].pos == h.nodes[m].pos && h'.nodes[m].data == h.nodes[m].data
               && h'.nodes[m].enqTid == h.nodes[m].enqTid && h'.nodes[m].deqTid == h.nodes[m].deqTid
               && (h.slots[p].desc.kind.Deq? ==> Behind(h', m) == Behind(h, m))
    ensures SlotOk(h', p) && SlotStep(h, h', p)
  {
    AtSlot(h, p);
  }

  lemma ReplaceOwners(h: Heap, q: nat, pending: bool, node: Option<nat>)
    requires HeapInv(h) && q < |h.slots| && Replaceable(h, q, pending, node)
    ensures var h' := Replaced(h, q, pending, node);
            Shape(h') && Sizes(h') && ClaimOwner(h') && Dangling(h') && LogOk(h')
  {
    var h' := Replaced(h, q, pending, node);
    ListFrame(h, h');
    assert h.nodes[h.head.node].pos == Some(h.head.aba);
    forall p | 0 <= p < |h.slots| && h'.lin[p].Some?
      ensures EventOf(h', p) in h'.log
    {
      assert EventOf(h', p) == EventOf(h, p);
    }
  }

  /** A successful CAS of a descriptor, by any thread. */
  lemma ReplaceKeeps(h: Heap, q: nat, pending: bool, node: Option<nat>)
    requires HeapInv(h) && q < |h.slots| && Replaceable(h, q, pending, node)
    ensures var h' := Replaced(h, q, pending, node); HeapInv(h') && Rely(h, h')
  {
    var h' := Replaced(h, q, pending, node);
    ListFrame(h, h');
    ReplaceSlotOk(h, q, pending, node);
    ReplaceOwners(h, q, pending, node);
    forall p | 0 <= p < |h.slots|
      ensures SlotOk(h', p) && SlotStep(h, h', p)
    {
      if p != q {
        SlotFrame(h, h', p);
      }
    }
  }

  // ------------------------------------------------------------------ publication

  lemma PublishList(h: Heap, t: nat, l: Local)
    requires HeapInv(h) && Quiet(h, t)
    ensures var h' := PublishOp(h, t, l);
            && Shape(h') && Claims(h') && Sizes(h') && NodesGrow(h, h') && Contents(h') == Contents(h)
            && |h'.slots| == |h.slots|
            && forall m :: 0 <= m < |h.nodes| ==> h'.nodes[m] == h.nodes[m] && Behind(h', m) == Behind(h, m)
  {
    hide ReplayQueue, ClaimOwner, Dangling, SlotOk;
    var h' := PublishOp(h, t, l);
    SameClaims(h, h');
    hide NodesGrow;
    forall i | 0 <= i < |h.list| ensures NextOk(h', i) { AtList(h, i); }
    forall m | 0 <= m < |h'.nodes| ensures NodeOk(h', m) { AtNode(h, m); }
    ContentsFrame(h, h');
  }

  lemma PublishLog(h: Heap, t: nat, l: Local)
    requires HeapInv(h) && Quiet(h, t)
    ensures LogOk(PublishOp(h, t, l))
  {
    var h' := PublishOp(h, t, l);
    PublishList(h, t, l);
    forall p | 0 <= p < |h.slots| && h'.lin[p].Some?
      ensures EventOf(h', p) in h'.log
    {
      assert p != t;
      assert EventOf(h', p) == EventOf(h, p);
    }
  }

  lemma PublishOwners(h: Heap, t: nat, l: Local)
    requires HeapInv(h) && Quiet(h, t)
    ensures var h' := PublishOp(h, t, l);
            Shape(h') && Sizes(h') && ClaimOwner(h') && Dangling(h')
  {
    hide LogOk, NextOk, NodeOk, NodesGrow, Contents, Behind;
    PublishList(h, t, l);
    assert h.nodes[h.head.node].pos == Some(h.head.aba);
    if |h.list| == h.tail.aba + 2 {
      assert h.nodes[h.list[h.tail.aba + 1]].pos == Some(h.tail.aba + 1);
    }
  }

  lemma PublishSlot(h: Heap, t: nat, l: Local)
    requires HeapInv(h) && Ready(h, t, l)
    ensures var h' := PublishOp(h, t, l);
            Shape(h') && Sizes(h') && |h'.slots| == |h.slots| && SlotOk(h', t) && SlotStep(h, h', t)
    ensures Published(PublishOp(h, t, l), t, StepOuter(h, t, l.(pc := Publish), StartDequeue).1)
  {
    PublishList(h, t, l);
  }

  lemma PublishKeeps(h: Heap, t: nat, l: Local)
    requires HeapInv(h) && Ready(h, t, l)
    ensures var h' := PublishOp(h, t, l); HeapInv(h') && Rely(h, h')
  {
    var h' := PublishOp(h, t, l);
    PublishList(h, t, l);
    PublishLog(h, t, l);
    PublishOwners(h, t, l);
    PublishSlot(h, t, l);
    forall p | 0 <= p < |h.slots|
      ensures SlotOk(h', p) && SlotStep(h, h', p)
    {
      if p != t {
        AtSlot(h, p);
        SlotFrame(h, h', p);
      }
    }
  }

  // ------------------------------------------------------------------ linking a node

  /** An event of an operation that has none yet. */
  lemma LogAppend(h: Heap, h': Heap, q: nat, e: Event)
    requires LogOkSizes(h, h') && LogOk(h) && q < |h.slots| && h.lin[q].None?
    requires h'.log == h.log + [e] && h'.ops == h.ops
    requires h'.lin[q].Some? && h'.lin == h.lin[q := h'.lin[q]] && e == EventOf(h', q)
    requires forall p :: 0 <= p < |h.slots| ==> h'.slots[p] == h.slots[p]
    requires Contents(h') == [] ==> forall p :: 0 <= p < |h.slots| ==> h'.sawEmpty[p]
    requires match ReplayQueue(h.log)
             case None => false
             case Some(c) => match e
               case Added(_, _, v) => Contents(h') == c + [v]
               case Removed(_, _, v) => |c| > 0 && c[0] == v && Contents(h') == c[1..]
    ensures LogOk(h')
  {
    QueueAppend(h.log, e);
    forall p | 0 <= p < |h'.slots| && h'.lin[p].Some?
      ensures EventOf(h', p) in h'.log
    {
      if p != q {
        assert EventOf(h', p) == EventOf(h, p);
      } else {
        assert h'.log[|h.log|] == e;
      }
    }
    forall j, k | 0 <= j < k < |h'.log|
      ensures !(h'.log[j].tid == h'.log[k].tid && h'.log[j].op == h'.log[k].op)
    {
      assert h'.log[j] == h.log[j];
      if k < |h.log| {
        assert h'.log[k] == h.log[k];
      }
    }
  }

  ghost predicate LogOkSizes(h: Heap, h': Heap) {
    Sizes(h) && Sizes(h') && |h'.slots| == |h.slots|
  }

  /** The write of a node behind the last one. */
  function Linked(h: Heap, q: nat): Heap
    requires Shape(h) && Sizes(h) && Unlinked(h, q)
  {
    LinkNode(h, h.list[|h.list| - 1], Link(h.slots[q].desc.node, 1), q)
  }

  lemma LinkNodes(h: Heap, q: nat)
    requires HeapInv(h) && Unlinked(h, q) && |h.list| == h.tail.aba + 1
    ensures var h' := Linked(h, q);
            var n := h.slots[q].desc.node.value;
            var last := h.list[|h.list| - 1];
            && Sizes(h') && h'.list == h.list + [n] && h'.slots == h.slots && h'.ops == h.ops
            && h'.head == h.head && h'.tail == h.tail && h'.nextDesc == h.nextDesc
            && last != n
            && |h'.nodes| == |h.nodes|
            && h'.nodes[n] == h.nodes[n].(pos := Some(|h.list|))
            && h'.nodes[last] == h.nodes[last].(next := Link(Some(n), 1))
            && (forall m {:trigger h'.nodes[m]} :: 0 <= m < |h.nodes| && m != n && m != last ==>
                  h'.nodes[m] == h.nodes[m])
  {
    AtNode(h, h.slots[q].desc.node.value);
  }

  lemma LinkShape(h: Heap, q: nat)
    requires HeapInv(h) && Unlinked(h, q) && |h.list| == h.tail.aba + 1
    ensures Shape(Linked(h, q))
  {
    hide Claims, ClaimOwner, Dangling, SlotOk, LogOk;
    var h' := Linked(h, q);
    LinkNodes(h, q);
    AtNode(h, h.slots[q].desc.node.value);
    forall i | 0 <= i < |h'.list|
      ensures NextOk(h', i) && h'.list[i] < |h'.nodes| && h'.nodes[h'.list[i]].pos == Some(i)
    {
      LinkAt(h, q, i);
    }
    forall m | 0 <= m < |h.nodes| ensures NodeOk(h', m) {
      AtNode(h, m);
    }
  }

  lemma LinkList(h: Heap, q: nat)
    requires HeapInv(h) && Unlinked(h, q) && |h.list| == h.tail.aba + 1
    ensures var h' := Linked(h, q);
            var n := h.slots[q].desc.node.value;
            && Shape(h') && Claims(h') && Sizes(h') && NodesGrow(h, h')
            && |h'.nodes| == |h.nodes| && h'.list == h.list + [n]
            && h'.nodes[n].pos == Some(|h.list|)
            && (forall m {:trigger h'.nodes[m]} :: 0 <= m < |h.nodes| ==>
                  && h'.nodes[m].data == h.nodes[m].data && h'.nodes[m].deqTid == h.nodes[m].deqTid
                  && (m != n ==> h'.nodes[m].pos == h.nodes[m].pos))
  {
    hide ClaimOwner, Dangling, SlotOk, LogOk;
    var h' := Linked(h, q);
    LinkNodes(h, q);
    AtNode(h, h.slots[q].desc.node.value);
    LinkShape(h, q);
    assert h'.list[..|h.list|] == h.list;
    SameClaims(h, h');
    hide NodesGrow;
  }

  lemma LinkAt(h: Heap, q: nat, i: nat)
    requires HeapInv(h) && Unlinked(h, q) && |h.list| == h.tail.aba + 1 && i <= |h.list|
    ensures var h' := Linked(h, q);
            NextOk(h', i) && i < |h'.list| && h'.list[i] < |h'.nodes| && h'.nodes[h'.list[i]].pos == Some(i)
  {
    var n := h.slots[q].desc.node.value;
    LinkNodes(h, q);
    AtNode(h, n);
    if i < |h.list| {
      AtList(h, i);
      assert h.list[i] != n;
      assert i != |h.list| - 1 ==> h.list[i] != h.list[|h.list| - 1];
    }
  }

  lemma LinkContents(h: Heap, q: nat)
    requires HeapInv(h) && Unlinked(h, q) && |h.list| == h.tail.aba + 1
    ensures Contents(Linked(h, q)) == Contents(h) + [h.nodes[h.slots[q].desc.node.value].data]
  {
    var h' := Linked(h, q);
    LinkList(h, q);
    var k := FirstLive(h);
    assert FirstLive(h') == k;
    assert h.nodes[h.head.node].pos == Some(h.head.aba);
    assert k <= |h.list|;
    assert h'.list[k..] == h.list[k..] + [h.slots[q].desc.node.value];
    forall i | 0 <= i < |h.list| - k
      ensures Contents(h')[i] == Contents(h)[i]
    {
      assert h'.list[k..][i] == h.list[k..][i] == h.list[k + i];
    }
  }

  lemma LinkKeeps(h: Heap, q: nat)
    requires HeapInv(h) && Unlinked(h, q) && |h.list| == h.tail.aba + 1
    ensures HeapInv(Linked(h, q)) && Rely(h, Linked(h, q))
  {
    var h' := Linked(h, q);
    var n := h.slots[q].desc.node.value;
    LinkList(h, q);
    LinkContents(h, q);
    AtSlot(h, q);
    LogAppend(h, h', q, Added(q, h.ops[q], h.nodes[n].data));
    assert h'.list[h.tail.aba + 1] == n;
    assert ClaimOwner(h') && Dangling(h');
    forall p | 0 <= p < |h.slots|
      ensures SlotOk(h', p) && SlotStep(h, h', p)
    {
      AtSlot(h, p);
      if p != q {
        LinkSlotFrame(h, q, p);
      }
    }
  }

  lemma LinkSlotFrame(h: Heap, q: nat, p: nat)
    requires HeapInv(h) && Unlinked(h, q) && |h.list| == h.tail.aba + 1 && p < |h.slots| && p != q
    ensures var h' := Linked(h, q);
            Shape(h') && Sizes(h') && |h'.slots| == |h.slots| && SlotOk(h', p) && SlotStep(h, h', p)
  {
    var h' := Linked(h, q);
    LinkList(h, q);
    AtSlot(h, p);
    AtSlot(h, q);
    if h.slots[p].desc.kind.Deq? && h.slots[p].desc.node.Some? {
      var i := h.nodes[h.slots[p].desc.node.value].pos.value + 1;
      assert h'.list[i] == h.list[i];
    }
    SlotFrame(h, h', p);
  }

  // ------------------------------------------------------------------ claiming head

  lemma ClaimList(h: Heap, q: nat)
    requires HeapInv(h) && q < |h.slots|
    requires h.nodes[h.head.node].deqTid.None? && h.head.aba < h.tail.aba
    requires h.slots[q].desc.node == Some(h.head.node)
    ensures var h' := ClaimNode(h, h.head.node, q);
            && Shape(h') && Claims(h') && Sizes(h') && NodesGrow(h, h')
            && h' == h.(nodes := h.nodes[h.head.node := h.nodes[h.head.node].(deqTid := Some(q))],
                        lin := h.lin[q := Some(Behind(h, h.head.node))],
                        log := h.log + [Removed(q, h.ops[q], Behind(h, h.head.node))],
                        sawEmpty := h'.sawEmpty)
            && (forall p :: 0 <= p < |h.slots| && h.sawEmpty[p] ==> h'.sawEmpty[p])
            && (Contents(h') == [] ==> forall p :: 0 <= p < |h.slots| ==> h'.sawEmpty[p])
            && (forall m :: 0 <= m < |h.nodes| ==> Behind(h', m) == Behind(h, m))
  {
    hide ClaimOwner, Dangling, SlotOk, LogOk;
    var h' := ClaimNode(h, h.head.node, q);
    assert h.nodes[h.head.node].pos == Some(h.head.aba);
    AtList(h, h.head.aba);
    forall i | 0 <= i < |h.list| ensures NextOk(h', i) { AtList(h, i); }
    forall m | 0 <= m < |h.nodes| ensures NodeOk(h', m) { AtNode(h, m); }
    forall m | 0 <= m < |h.nodes| ensures ClaimStep(h, h', m) {}
    forall m | 0 <= m < |h.nodes| ensures Behind(h', m) == Behind(h, m) {}
  }

  lemma ClaimContents(h: Heap, q: nat)
    requires HeapInv(h) && q < |h.slots|
    requires h.nodes[h.head.node].deqTid.None? && h.head.aba < h.tail.aba
    requires h.slots[q].desc.node == Some(h.head.node)
    ensures |Contents(h)| > 0 && Contents(h)[0] == Behind(h, h.head.node)
    ensures Contents(ClaimNode(h, h.head.node, q)) == Contents(h)[1..]
  {
    hide Claims, ClaimOwner, Dangling, SlotOk, LogOk, NextOk, NodeOk, NodesGrow;
    var h' := ClaimNode(h, h.head.node, q);
    ClaimList(h, q);
    var k := FirstLive(h);
    assert h.nodes[h.head.node].pos == Some(h.head.aba);
    assert k == h.head.aba + 1 && FirstLive(h') == k + 1;
    assert h.list[k..][0] == h.list[k];
    assert h'.list[k + 1..] == h.list[k..][1..];
    forall i | 0 <= i < |h.list| - k - 1
      ensures Contents(h')[i] == Contents(h)[1..][i]
    {
      assert h'.list[k + 1..][i] == h.list[k..][i + 1] == h.list[k + 1 + i];
    }
  }

  lemma ClaimSlot(h: Heap, q: nat, p: nat)
    requires HeapInv(h) && q < |h.slots| && p < |h.slots|
    requires h.nodes[h.head.node].deqTid.None? && h.head.aba < h.tail.aba
    requires h.slots[q].desc.kind.Deq? && h.slots[q].desc.pending && h.slots[q].desc.node == Some(h.head.node)
    ensures var h' := ClaimNode(h, h.head.node, q);
            Shape(h') && Sizes(h') && |h'.slots| == |h.slots| && SlotOk(h', p) && SlotStep(h, h', p)
  {
    hide LogOk, ReplayQueue, NodesGrow;
    ClaimList(h, q);
    AtSlot(h, p);
    assert h.nodes[h.head.node].pos == Some(h.head.aba);
  }

  lemma ClaimLog(h: Heap, q: nat)
    requires HeapInv(h) && q < |h.slots|
    requires h.nodes[h.head.node].deqTid.None? && h.head.aba < h.tail.aba
    requires h.slots[q].desc.kind.Deq? && h.slots[q].desc.pending && h.slots[q].desc.node == Some(h.head.node)
    ensures var h' := ClaimNode(h, h.head.node, q); Sizes(h') && LogOk(h')
  {
    var h' := ClaimNode(h, h.head.node, q);
    ClaimList(h, q);
    ClaimContents(h, q);
    AtSlot(h, q);
    hide NodesGrow, Contents, ReplayQueue, NodeOk, NextOk;
    LogAppend(h, h', q, Removed(q, h.ops[q], Behind(h, h.head.node)));
  }

  lemma ClaimOwners(h: Heap, q: nat)
    requires HeapInv(h) && q < |h.slots|
    requires h.nodes[h.head.node].deqTid.None? && h.head.aba < h.tail.aba
    requires h.slots[q].desc.kind.Deq? && h.slots[q].desc.pending && h.slots[q].desc.node == Some(h.head.node)
    ensures var h' := ClaimNode(h, h.head.node, q); Shape(h') && Sizes(h') && ClaimOwner(h') && Dangling(h')
  {
    ClaimList(h, q);
    hide NodesGrow, LogOk, SlotOk, Contents;
  }

  lemma ClaimKeeps(h: Heap, q: nat)
    requires HeapInv(h) && q < |h.slots|
    requires h.nodes[h.head.node].deqTid.None? && h.head.aba < h.tail.aba
    requires h.slots[q].desc.kind.Deq? && h.slots[q].desc.pending && h.slots[q].desc.node == Some(h.head.node)
    ensures var h' := ClaimNode(h, h.head.node, q); HeapInv(h') && Rely(h, h')
  {
    hide LogOk, ClaimOwner, Dangling, NodesGrow, Claims, Shape, SlotOk, SlotStep, Contents, Behind;
    var h' := ClaimNode(h, h.head.node, q);
    ClaimList(h, q);
    ClaimLog(h, q);
    ClaimOwners(h, q);
    forall p | 0 <= p < |h.slots|
      ensures SlotOk(h', p) && SlotStep(h, h', p)
    {
      ClaimSlot(h, q, p);
    }
  }
}
