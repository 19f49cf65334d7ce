/** The memory of the timestamped deque buffer, and what every operation keeps about it. */
module TSDequeModel {
  import opened Basics
  import opened Timestamps

  /** A list node. Pointers are positions in the memory of the buffer. */
  datatype Item = Item(left: nat, right: nat, taken: bool, data: int, timestamp: Time, index: int)

  /** A pointer with its three-bit ABA tag. */
  datatype Ptr = Ptr(node: nat, tag: nat)

  function AddNextAba(node: nat, was: Ptr, increment: nat): Ptr {
    Ptr(node, (was.tag + increment) % 8)
  }

  /** The value that stands for no element. */
  const NULL: int := 0

  predicate InsertedLeft(item: Item) {
    item.index < 0
  }

  predicate InsertedRight(item: Item) {
    item.index > 0
  }

  predicate IsMoreLeft(item1: Item, t1: Time, item2: Item, t2: Time) {
    if InsertedLeft(item2) then
      InsertedLeft(item1) && IsLater(t1, t2)
    else
      InsertedLeft(item1) || IsLater(t2, t1)
  }

  predicate IsMoreRight(item1: Item, t1: Time, item2: Item, t2: Time) {
    if InsertedRight(item2) then
      InsertedRight(item1) && IsLater(t1, t2)
    else
      InsertedRight(item1) || IsLater(t2, t1)
  }

  /** The left-to-right order of the deque. */
  predicate Before(item1: Item, item2: Item) {
    IsMoreLeft(item1, item1.timestamp, item2, item2.timestamp)
  }

  /** The two comparisons the buffer makes are one strict order, read from either end. */
  lemma BeforeIsStrictOrder(a: Item, b: Item, c: Item)
    ensures !(Before(a, b) && Before(b, a))
    ensures Before(a, b) && Before(b, c) ==> Before(a, c)
    ensures a.index != 0 && b.index != 0 ==> (Before(a, b) <==> IsMoreRight(b, b.timestamp, a, a.timestamp))
  {
  }

  // ------------------------------------------------------------------ the state

  /** All shared memory of the buffer, with the list of each thread, the thread each node belongs
      to, and the nodes not taken, from left to right. */
  datatype View = View(items: seq<Item>, left: seq<Ptr>, right: seq<Ptr>, next: seq<int>,
                       chains: seq<seq<nat>>, owner: seq<nat>, order: seq<nat>)

  predicate Sizes(v: View) {
    |v.left| == |v.right| == |v.next| == |v.chains| && |v.owner| == |v.items|
  }

  /** Node `i` of a chain is linked to its neighbours; the ends point to themselves. */
  ghost predicate LinkOk(items: seq<Item>, chain: seq<nat>, i: nat) {
    i < |chain| && chain[i] < |items| ==>
      && items[chain[i]].right == (if i + 1 < |chain| then chain[i + 1] else chain[i])
      && items[chain[i]].left == (if i > 0 then chain[i - 1] else chain[i])
  }

  ghost predicate InList(items: seq<Item>, chain: seq<nat>, node: nat) {
    node < |items| && node in chain
  }

  ghost predicate Linked(items: seq<Item>, chain: seq<nat>) {
    forall i {:trigger LinkOk(items, chain, i)} :: 0 <= i < |chain| ==> LinkOk(items, chain, i)
  }

  /** The nodes of the list of thread `t`, whose next index is `next`. */
  ghost predicate Owned(items: seq<Item>, owner: seq<nat>, chain: seq<nat>, t: nat, next: int) {
    forall i {:trigger chain[i]} :: 0 <= i < |chain| ==>
      chain[i] < |items| && chain[i] < |owner| && owner[chain[i]] == t && -next < items[chain[i]].index < next
  }

  /** Sorted by index, and the nodes not taken also from left to right. */
  ghost predicate Sorted(items: seq<Item>, chain: seq<nat>) {
    forall i, j {:trigger chain[i], chain[j]} :: 0 <= i < j < |chain| && chain[i] < |items| && chain[j] < |items| ==>
      && items[chain[i]].index < items[chain[j]].index
      && (!items[chain[i]].taken && !items[chain[j]].taken ==> Before(items[chain[i]], items[chain[j]]))
  }

  /** Every node of the list that is not taken lies between the left and the right pointer. */
  ghost predicate Between(items: seq<Item>, chain: seq<nat>, l: Ptr, r: Ptr) {
    && InList(items, chain, l.node) && InList(items, chain, r.node)
    && items[l.node].index <= items[r.node].index
    && (forall i {:trigger chain[i]} :: 0 <= i < |chain| && chain[i] < |items| && !items[chain[i]].taken ==>
          items[l.node].index <= items[chain[i]].index <= items[r.node].index)
  }

  ghost predicate ListOk(v: View, t: nat)
    requires Sizes(v) && t < |v.chains|
  {
    && |v.chains[t]| > 0
    && Owned(v.items, v.owner, v.chains[t], t, v.next[t])
    && Linked(v.items, v.chains[t])
    && Sorted(v.items, v.chains[t])
    && Between(v.items, v.chains[t], v.left[t], v.right[t])
  }

  /** Every node that is not taken is in the list of its thread. */
  ghost predicate NothingLost(v: View)
    requires Sizes(v)
  {
    forall n {:trigger v.items[n]} :: 0 <= n < |v.items| && !v.items[n].taken ==>
      v.owner[n] < |v.chains| && n in v.chains[v.owner[n]] && v.items[n].index != 0
  }

  /** `order` holds exactly the nodes that are not taken, from left to right. */
  ghost predicate Ordered(v: View) {
    && (forall n: nat {:trigger n in v.order} :: n in v.order <==> n < |v.items| && !v.items[n].taken)
    && (forall i, j {:trigger v.order[i], v.order[j]} ::
          0 <= i < j < |v.order| && v.order[i] < |v.items| && v.order[j] < |v.items| ==>
            Before(v.items[v.order[i]], v.items[v.order[j]]))
  }

  /** Every node that is not taken has a timestamp of the past, except a node whose insertion has
      not set it yet. */
  ghost predicate Stamped(v: View, clock: nat, pending: Option<nat>) {
    forall n {:trigger v.items[n]} :: 0 <= n < |v.items| && !v.items[n].taken ==>
      if pending == Some(n) then v.items[n].timestamp == Top
      else v.items[n].timestamp.Tick? && v.items[n].timestamp.value < clock
  }

  ghost predicate Inv(v: View, clock: nat, pending: Option<nat>) {
    && Sizes(v)
    && (forall t {:trigger ListOk(v, t)} :: 0 <= t < |v.chains| ==> ListOk(v, t))
    && NothingLost(v)
    && Ordered(v)
    && Stamped(v, clock, pending)
  }

  /** The values of some nodes. */
  function Values(items: seq<Item>, nodes: seq<nat>): (r: seq<int>)
    ensures |r| == |nodes|
  {
    seq(|nodes|, i requires 0 <= i < |nodes| => if nodes[i] < |items| then items[nodes[i]].data else NULL)
  }

  /** The abstract deque. */
  function Contents(v: View): seq<int> {
    Values(v.items, v.order)
  }

  lemma AtList(v: View, clock: nat, pending: Option<nat>, t: nat)
    requires Inv(v, clock, pending) && t < |v.chains|
    ensures ListOk(v, t)
  {
  }

  lemma AtLink(items: seq<Item>, chain: seq<nat>, i: nat)
    requires forall k {:trigger LinkOk(items, chain, k)} :: 0 <= k < |chain| ==> LinkOk(items, chain, k)
    requires i < |chain|
    ensures LinkOk(items, chain, i)
  {
  }

  // ------------------------------------------------------------------ initialisation

  /** Every list starts with a sentinel that is taken. */
  function Sentinels(n: nat): seq<Item> {
    seq(n, i requires 0 <= i < n => Item(i, i, true, NULL, Tick(0), 0))
  }

  function InitView(n: nat): View {
    View(Sentinels(n), seq(n, i requires 0 <= i < n => Ptr(i, 0)), seq(n, i requires 0 <= i < n => Ptr(i, 0)),
         seq(n, i => 1), seq(n, i requires 0 <= i < n => [i]), seq(n, i requires 0 <= i < n => i), [])
  }

  lemma InitInv(n: nat)
    ensures Inv(InitView(n), 1, None)
  {
    var v := InitView(n);
    forall t | 0 <= t < n ensures ListOk(v, t) {
      assert LinkOk(v.items, v.chains[t], 0);
    }
  }

  // ------------------------------------------------------------------ insertion

  /** The new leftmost node of thread `t` goes in front of node `k` of the list; the nodes to the
      left of that one, which are all taken, are cut off. */
  function InsertLeft(v: View, t: nat, k: nat, element: int): View
    requires Sizes(v) && t < |v.chains| && k < |v.chains[t]| && v.chains[t][k] < |v.items|
  {
    var id := |v.items|;
    var stop := v.chains[t][k];
    var items := v.items[stop := v.items[stop].(left := id)] + [Item(id, stop, false, element, Top, -v.next[t])];
    var right := if k + 1 == |v.chains[t]| then v.right[t := AddNextAba(stop, v.right[t], 1)] else v.right;
    View(items, v.left[t := AddNextAba(id, v.left[t], 1)], right, v.next[t := v.next[t] + 1],
         v.chains[t := [id] + v.chains[t][k..]], v.owner + [t], [id] + v.order)
  }

  /** Node `k` is where a walk that starts at the left pointer and passes over taken nodes stops. */
  ghost predicate LeftStop(v: View, t: nat, k: nat)
    requires Sizes(v) && t < |v.chains|
  {
    && k < |v.chains[t]| && v.chains[t][k] < |v.items|
    && (forall i {:trigger v.chains[t][i]} :: 0 <= i < k && v.chains[t][i] < |v.items| ==> v.items[v.chains[t][i]].taken)
    && (k + 1 == |v.chains[t]| || !v.items[v.chains[t][k]].taken)
  }

  lemma InsertLeftLinks(v: View, clock: nat, t: nat, k: nat, element: int)
    requires Inv(v, clock, None) && t < |v.chains| && LeftStop(v, t, k)
    ensures var v' := InsertLeft(v, t, k, element);
            Linked(v'.items, v'.chains[t]) && Owned(v'.items, v'.owner, v'.chains[t], t, v'.next[t])
  {
    hide NothingLost, Ordered, Stamped, Between;
    var v' := InsertLeft(v, t, k, element);
    var chain, chain' := v.chains[t], v'.chains[t];
    AtList(v, clock, None, t);
    assert forall i :: 1 <= i < |chain'| ==> chain'[i] == chain[i - 1 + k];
    forall i | 0 <= i < |chain'| ensures LinkOk(v'.items, chain', i) {
      if i > 0 {
        AtLink(v.items, chain, i - 1 + k);
      }
    }
  }

  lemma InsertLeftSorted(v: View, clock: nat, t: nat, k: nat, element: int)
    requires Inv(v, clock, None) && t < |v.chains| && LeftStop(v, t, k)
    ensures var v' := InsertLeft(v, t, k, element); Sorted(v'.items, v'.chains[t])
  {
    hide NothingLost, Ordered, Between, Linked;
    var v' := InsertLeft(v, t, k, element);
    var chain, chain' := v.chains[t], v'.chains[t];
    AtList(v, clock, None, t);
    assert forall i :: 1 <= i < |chain'| ==> chain'[i] == chain[i - 1 + k];
  }

  /** Positions in a list compare as the indices do. */
  lemma AtSorted(items: seq<Item>, chain: seq<nat>, i: nat, j: nat)
    requires Sorted(items, chain) && i < |chain| && j < |chain| && chain[i] < |items| && chain[j] < |items|
    ensures i < j <==> items[chain[i]].index < items[chain[j]].index
  {
  }

  lemma AtBetween(items: seq<Item>, chain: seq<nat>, l: Ptr, r: Ptr, i: nat)
    requires Between(items, chain, l, r) && i < |chain| && chain[i] < |items| && !items[chain[i]].taken
    ensures items[l.node].index <= items[chain[i]].index <= items[r.node].index
  {
  }

  lemma AtOwned(items: seq<Item>, owner: seq<nat>, chain: seq<nat>, t: nat, next: int, i: nat)
    requires Owned(items, owner, chain, t, next) && i < |chain|
    ensures chain[i] < |items| && chain[i] < |owner| && owner[chain[i]] == t && -next < items[chain[i]].index < next
  {
  }

  lemma InsertLeftBetween(v: View, clock: nat, t: nat, k: nat, element: int)
    requires Inv(v, clock, None) && t < |v.chains| && LeftStop(v, t, k)
    ensures var v' := InsertLeft(v, t, k, element); Between(v'.items, v'.chains[t], v'.left[t], v'.right[t])
  {
    hide NothingLost, Ordered, Stamped, Linked, Sorted, Between, Owned;
    var v' := InsertLeft(v, t, k, element);
    var chain, chain' := v.chains[t], v'.chains[t];
    AtList(v, clock, None, t);
    var j := RightPosition(v, clock, t, k);
    assert chain'[0] == |v.items|;
    assert chain'[j - k + 1] == chain[j];
    AtOwned(v.items, v.owner, chain, t, v.next[t], j);
    forall i | 0 <= i < |chain'|
      ensures chain'[i] < |v'.items|
      ensures v'.items[chain'[0]].index <= v'.items[chain'[i]].index
      ensures !v'.items[chain'[i]].taken ==> v'.items[chain'[i]].index <= v'.items[chain[j]].index
    {
      if i > 0 {
        assert chain'[i] == chain[i - 1 + k];
        AtOwned(v.items, v.owner, chain, t, v.next[t], i - 1 + k);
        AtSorted(v.items, chain, j, i - 1 + k);
        if !v.items[chain[i - 1 + k]].taken {
          AtBetween(v.items, chain, v.left[t], v.right[t], i - 1 + k);
        }
      }
    }
    BetweenIntro(v'.items, chain', v'.left[t], v'.right[t]);
  }

  lemma BetweenIntro(items: seq<Item>, chain: seq<nat>, l: Ptr, r: Ptr)
    requires InList(items, chain, l.node) && InList(items, chain, r.node)
    requires items[l.node].index <= items[r.node].index
    requires forall i :: 0 <= i < |chain| ==>
               chain[i] < |items| && (!items[chain[i]].taken ==> items[l.node].index <= items[chain[i]].index <= items[r.node].index)
    ensures Between(items, chain, l, r)
  {
  }

  /** Where the right pointer is after an insertion at the left. */
  lemma RightPosition(v: View, clock: nat, t: nat, k: nat) returns (j: nat)
    requires Inv(v, clock, None) && t < |v.chains| && LeftStop(v, t, k)
    ensures k <= j < |v.chains[t]|
    ensures v.chains[t][j] == if k + 1 == |v.chains[t]| then v.chains[t][k] else v.right[t].node
  {
    hide NothingLost, Ordered, Stamped, Linked, Sorted;
    AtList(v, clock, None, t);
    if k + 1 == |v.chains[t]| {
      j := k;
    } else {
      j :| 0 <= j < |v.chains[t]| && v.chains[t][j] == v.right[t].node;
      AtSorted(v.items, v.chains[t], j, k);
    }
  }

  lemma InsertLeftLost(v: View, clock: nat, t: nat, k: nat, element: int)
    requires Inv(v, clock, None) && t < |v.chains| && LeftStop(v, t, k)
    ensures Sizes(InsertLeft(v, t, k, element)) && NothingLost(InsertLeft(v, t, k, element))
  {
    hide Ordered, Stamped, Linked, Between;
    var v' := InsertLeft(v, t, k, element);
    AtList(v, clock, None, t);
    forall n | 0 <= n < |v'.items| && !v'.items[n].taken
      ensures v'.owner[n] < |v'.chains| && n in v'.chains[v'.owner[n]] && v'.items[n].index != 0
    {
      if n == |v.items| {
        assert v'.chains[t][0] == n;
      } else if v.owner[n] == t {
        var i :| 0 <= i < |v.chains[t]| && v.chains[t][i] == n;
        assert v'.chains[t][i - k + 1] == n;
      }
    }
  }

  lemma InsertLeftOrder(v: View, clock: nat, t: nat, k: nat, element: int)
    requires Inv(v, clock, None) && t < |v.chains| && LeftStop(v, t, k)
    ensures Ordered(InsertLeft(v, t, k, element))
  {
    hide NothingLost, ListOk;
    var v' := InsertLeft(v, t, k, element);
    OwnerOf(v, clock, t, k);
    forall n: nat ensures n in v'.order <==> n < |v'.items| && !v'.items[n].taken {
      assert n in v'.order <==> n == |v.items| || n in v.order;
    }
    forall i, j | 0 <= i < j < |v'.order| && v'.order[i] < |v'.items| && v'.order[j] < |v'.items|
      ensures Before(v'.items[v'.order[i]], v'.items[v'.order[j]])
    {
      assert v'.order[j] == v.order[j - 1] && v.order[j - 1] in v.order;
      if i > 0 {
        assert v'.order[i] == v.order[i - 1] && v.order[i - 1] in v.order;
      }
    }
  }

  lemma InsertLeftContents(v: View, clock: nat, t: nat, k: nat, element: int)
    requires Inv(v, clock, None) && t < |v.chains| && LeftStop(v, t, k)
    ensures Contents(InsertLeft(v, t, k, element)) == [element] + Contents(v)
  {
    hide NothingLost, ListOk, Stamped, Before;
    var v' := InsertLeft(v, t, k, element);
    OwnerOf(v, clock, t, k);
    forall i | 0 <= i < |v.order|
      ensures Values(v'.items, v'.order)[i + 1] == Values(v.items, v.order)[i]
    {
      var n := v.order[i];
      assert n in v.order && v'.order[i + 1] == n;
      assert v'.items[n].data == v.items[n].data;
      assert Values(v'.items, v'.order)[i + 1] == v'.items[n].data;
      assert Values(v.items, v.order)[i] == v.items[n].data;
    }
    assert Contents(v')[0] == element;
  }

  lemma InsertLeftInv(v: View, clock: nat, t: nat, k: nat, element: int)
    requires Inv(v, clock, None) && t < |v.chains| && LeftStop(v, t, k)
    ensures Inv(InsertLeft(v, t, k, element), clock, Some(|v.items|))
    ensures Contents(InsertLeft(v, t, k, element)) == [element] + Contents(v)
  {
    hide Ordered, NothingLost, Linked, Owned, Sorted, Between;
    var v' := InsertLeft(v, t, k, element);
    InsertLeftLinks(v, clock, t, k, element);
    InsertLeftSorted(v, clock, t, k, element);
    InsertLeftBetween(v, clock, t, k, element);
    InsertLeftLost(v, clock, t, k, element);
    InsertLeftOrder(v, clock, t, k, element);
    InsertLeftContents(v, clock, t, k, element);
    OwnerOf(v, clock, t, k);
    forall u | 0 <= u < |v'.chains| ensures ListOk(v', u) {
      if u != t {
        OtherList(v, v', clock, None, u);
      }
    }
  }

  lemma OwnerOf(v: View, clock: nat, t: nat, k: nat)
    requires Inv(v, clock, None) && t < |v.chains| && k < |v.chains[t]|
    ensures v.chains[t][k] < |v.items| && v.owner[v.chains[t][k]] == t && v.next[t] > 0
  {
    AtList(v, clock, None, t);
  }

  /** A list is not affected by what happens to the nodes and the pointers of other threads. */
  lemma OtherList(v: View, v': View, clock: nat, pending: Option<nat>, u: nat)
    requires Inv(v, clock, pending) && Sizes(v') && u < |v.chains| == |v'.chains|
    requires v'.chains[u] == v.chains[u] && v'.left[u] == v.left[u] && v'.right[u] == v.right[u]
    requires v'.next[u] == v.next[u]
    requires |v.items| <= |v'.items|
    requires forall n {:trigger v'.items[n]} {:trigger v.items[n]} :: 0 <= n < |v.items| && v.owner[n] == u ==>
               v'.items[n] == v.items[n] && v'.owner[n] == u
    ensures ListOk(v', u)
  {
    AtList(v, clock, pending, u);
    var chain := v.chains[u];
    assert forall i :: 0 <= i < |chain| ==> v'.items[chain[i]] == v.items[chain[i]];
    forall i | 0 <= i < |chain| ensures LinkOk(v'.items, chain, i) {
      AtLink(v.items, chain, i);
    }
  }

  // ------------------------------------------------------------------ the mirror image

  function Reverse<T>(s: seq<T>): (r: seq<T>)
    ensures |r| == |s|
  {
    seq(|s|, i requires 0 <= i < |s| => s[|s| - 1 - i])
  }

  function Flip(item: Item): Item {
    item.(left := item.right, right := item.left, index := -item.index)
  }

  function FlipAll(items: seq<Item>): seq<Item> {
    seq(|items|, i requires 0 <= i < |items| => Flip(items[i]))
  }

  function ReverseAll(chains: seq<seq<nat>>): seq<seq<nat>> {
    seq(|chains|, t requires 0 <= t < |chains| => Reverse(chains[t]))
  }

  /** The state with left and right exchanged. */
  function Mirror(v: View): View {
    View(FlipAll(v.items), v.right, v.left, v.next, ReverseAll(v.chains), v.owner, Reverse(v.order))
  }

  lemma MirrorLinked(items: seq<Item>, chain: seq<nat>)
    requires Linked(items, chain)
    ensures Linked(FlipAll(items), Reverse(chain))
  {
    forall i | 0 <= i < |chain| ensures LinkOk(FlipAll(items), Reverse(chain), i) {
      AtLink(items, chain, |chain| - 1 - i);
    }
  }

  lemma MirrorSorted(items: seq<Item>, chain: seq<nat>)
    requires Sorted(items, chain)
    requires forall i {:trigger chain[i]} :: 0 <= i < |chain| && chain[i] < |items| && !items[chain[i]].taken ==>
               items[chain[i]].index != 0
    ensures Sorted(FlipAll(items), Reverse(chain))
  {
    var items', chain' := FlipAll(items), Reverse(chain);
    forall i, j | 0 <= i < j < |chain'| && chain'[i] < |items'| && chain'[j] < |items'|
      ensures items'[chain'[i]].index < items'[chain'[j]].index
      ensures !items'[chain'[i]].taken && !items'[chain'[j]].taken ==> Before(items'[chain'[i]], items'[chain'[j]])
    {
      assert chain'[i] == chain[|chain| - 1 - i] && chain'[j] == chain[|chain| - 1 - j];
    }
  }

  lemma MirrorBetween(items: seq<Item>, chain: seq<nat>, l: Ptr, r: Ptr)
    requires Between(items, chain, l, r)
    ensures Between(FlipAll(items), Reverse(chain), r, l)
  {
    var chain' := Reverse(chain);
    var i :| 0 <= i < |chain| && chain[i] == l.node;
    var j :| 0 <= j < |chain| && chain[j] == r.node;
    assert chain'[|chain| - 1 - i] == l.node && chain'[|chain| - 1 - j] == r.node;
  }

  lemma MirrorList(v: View, clock: nat, pending: Option<nat>, t: nat)
    requires Inv(v, clock, pending) && t < |v.chains|
    ensures ListOk(Mirror(v), t)
  {
    hide Linked, Sorted, Between, Ordered, Stamped;
    AtList(v, clock, pending, t);
    MirrorLinked(v.items, v.chains[t]);
    MirrorSorted(v.items, v.chains[t]);
    MirrorBetween(v.items, v.chains[t], v.left[t], v.right[t]);
  }

  lemma MirrorOrdered(v: View, clock: nat, pending: Option<nat>)
    requires Inv(v, clock, pending)
    ensures Ordered(Mirror(v))
  {
    hide ListOk, Stamped;
    var v' := Mirror(v);
    forall n: nat ensures n in v'.order <==> n < |v'.items| && !v'.items[n].taken {
      ReverseMember(v.order, n);
    }
    forall i, j | 0 <= i < j < |v'.order| && v'.order[i] < |v'.items| && v'.order[j] < |v'.items|
      ensures Before(v'.items[v'.order[i]], v'.items[v'.order[j]])
    {
      var a, b := v'.order[i], v'.order[j];
      assert a == v.order[|v.order| - 1 - i] && b == v.order[|v.order| - 1 - j];
      assert a in v.order && b in v.order;
      assert Before(v.items[b], v.items[a]);
      assert v'.items[a] == Flip(v.items[a]) && v'.items[b] == Flip(v.items[b]);
    }
  }

  lemma MirrorLost(v: View)
    requires Sizes(v) && NothingLost(v)
    ensures NothingLost(Mirror(v))
  {
    var v' := Mirror(v);
    forall n: nat | n < |v'.items| && !v'.items[n].taken
      ensures v'.owner[n] < |v'.chains| && n in v'.chains[v'.owner[n]] && v'.items[n].index != 0
    {
      assert v'.items[n] == Flip(v.items[n]);
      assert v'.chains[v.owner[n]] == Reverse(v.chains[v.owner[n]]);
      ReverseMember(v.chains[v.owner[n]], n);
    }
  }

  lemma MirrorContents(v: View)
    requires Ordered(v)
    ensures Contents(Mirror(v)) == Reverse(Contents(v))
  {
    var v' := Mirror(v);
    forall i | 0 <= i < |v.order|
      ensures Values(v'.items, v'.order)[i] == Values(v.items, v.order)[|v.order| - 1 - i]
    {
      assert v'.order[i] == v.order[|v.order| - 1 - i];
      assert v.order[|v.order| - 1 - i] in v.order;
    }
  }

  lemma ReverseMember<T>(s: seq<T>, x: T)
    ensures x in Reverse(s) <==> x in s
  {
    if x in s {
      var i :| 0 <= i < |s| && s[i] == x;
      assert Reverse(s)[|s| - 1 - i] == x;
    }
  }

  /** The buffer is symmetric. */
  lemma MirrorInv(v: View, clock: nat, pending: Option<nat>)
    requires Inv(v, clock, pending)
    ensures Inv(Mirror(v), clock, pending)
    ensures Contents(Mirror(v)) == Reverse(Contents(v))
  {
    hide NothingLost, Ordered, ListOk;
    MirrorOrdered(v, clock, pending);
    MirrorLost(v);
    MirrorContents(v);
    forall t | 0 <= t < |v.chains| ensures ListOk(Mirror(v), t) {
      MirrorList(v, clock, pending, t);
    }
  }

  function InsertRight(v: View, t: nat, k: nat, element: int): View
    requires Sizes(v) && t < |v.chains| && k < |v.chains[t]| && v.chains[t][k] < |v.items|
  {
    var id := |v.items|;
    var stop := v.chains[t][k];
    var items := v.items[stop := v.items[stop].(right := id)] + [Item(stop, id, false, element, Top, v.next[t])];
    var left := if k == 0 then v.left[t := AddNextAba(stop, v.left[t], 1)] else v.left;
    View(items, left, v.right[t := AddNextAba(id, v.right[t], 1)], v.next[t := v.next[t] + 1],
         v.chains[t := v.chains[t][..k + 1] + [id]], v.owner + [t], v.order + [id])
  }

  /** Node `k` is where a walk that starts at the right pointer and passes over taken nodes stops. */
  ghost predicate RightStop(v: View, t: nat, k: nat)
    requires Sizes(v) && t < |v.chains|
  {
    && k < |v.chains[t]| && v.chains[t][k] < |v.items|
    && (forall i {:trigger v.chains[t][i]} :: k < i < |v.chains[t]| && v.chains[t][i] < |v.items| ==> v.items[v.chains[t][i]].taken)
    && (k == 0 || !v.items[v.chains[t][k]].taken)
  }

  lemma InsertRightMirrors(v: View, t: nat, k: nat, element: int)
    requires Sizes(v) && t < |v.chains| && k < |v.chains[t]| && v.chains[t][k] < |v.items|
    ensures var w := Mirror(v);
            var j := |v.chains[t]| - 1 - k;
            && Sizes(w) && w.chains[t][j] == v.chains[t][k]
            && InsertRight(v, t, k, element) == Mirror(InsertLeft(w, t, j, element))
  {
    var w := Mirror(v);
    var j := |v.chains[t]| - 1 - k;
    var x, y := InsertRight(v, t, k, element), Mirror(InsertLeft(w, t, j, element));
    assert x.items == y.items;
    assert x.chains[t] == y.chains[t];
    assert forall u :: 0 <= u < |v.chains| && u != t ==> Reverse(Reverse(v.chains[u])) == v.chains[u];
    assert x.chains == y.chains;
    assert x.order == y.order;
  }

  lemma InsertRightInv(v: View, clock: nat, t: nat, k: nat, element: int)
    requires Inv(v, clock, None) && t < |v.chains| && RightStop(v, t, k)
    ensures Inv(InsertRight(v, t, k, element), clock, Some(|v.items|))
    ensures Contents(InsertRight(v, t, k, element)) == Contents(v) + [element]
  {
    hide NothingLost, Ordered, ListOk;
    var w := Mirror(v);
    var j := |v.chains[t]| - 1 - k;
    MirrorInv(v, clock, None);
    InsertRightMirrors(v, t, k, element);
    InsertLeftInv(w, clock, t, j, element);
    MirrorInv(InsertLeft(w, t, j, element), clock, Some(|v.items|));
    assert Reverse([element] + Reverse(Contents(v))) == Contents(v) + [element];
  }

  // ------------------------------------------------------------------ timestamping

  function Stamp(v: View, n: nat, t: Time): View
    requires n < |v.items|
  {
    v.(items := v.items[n := v.items[n].(timestamp := t)])
  }

  lemma StampList(v: View, clock: nat, n: nat, t: nat)
    requires Inv(v, clock, Some(n)) && n < |v.items| && !v.items[n].taken && t < |v.chains|
    ensures ListOk(Stamp(v, n, Tick(clock)), t)
  {
    hide Ordered, NothingLost;
    var v' := Stamp(v, n, Tick(clock));
    var chain := v.chains[t];
    AtList(v, clock, Some(n), t);
    forall i | 0 <= i < |chain| ensures LinkOk(v'.items, chain, i) {
      AtLink(v.items, chain, i);
    }
  }

  lemma StampOrdered(v: View, clock: nat, n: nat)
    requires Ordered(v) && Stamped(v, clock, Some(n)) && n < |v.items|
    ensures Ordered(Stamp(v, n, Tick(clock)))
  {
    var v' := Stamp(v, n, Tick(clock));
    forall i, j | 0 <= i < j < |v'.order| && v'.order[i] < |v'.items| && v'.order[j] < |v'.items|
      ensures Before(v'.items[v'.order[i]], v'.items[v'.order[j]])
    {
      assert v.order[i] in v.order && v.order[j] in v.order;
    }
  }

  lemma StampInv(v: View, clock: nat, n: nat)
    requires Inv(v, clock, Some(n)) && n < |v.items| && !v.items[n].taken
    ensures Inv(Stamp(v, n, Tick(clock)), clock + 1, None)
    ensures Contents(Stamp(v, n, Tick(clock))) == Contents(v)
  {
    hide ListOk, Ordered;
    var v' := Stamp(v, n, Tick(clock));
    assert Values(v'.items, v.order) == Values(v.items, v.order);
    StampOrdered(v, clock, n);
    forall t | 0 <= t < |v.chains| ensures ListOk(v', t) {
      StampList(v, clock, n, t);
    }
  }

  // ------------------------------------------------------------------ removal

  /** Node `order[p]` is taken; the pointers of its list become `l` and `r`. */
  function Take(v: View, p: nat, l: Ptr, r: Ptr): View
    requires Sizes(v) && p < |v.order| && v.order[p] < |v.items| && v.owner[v.order[p]] < |v.chains|
  {
    var n := v.order[p];
    var t := v.owner[n];
    v.(items := v.items[n := v.items[n].(taken := true)], left := v.left[t := l], right := v.right[t := r],
       order := v.order[..p] + v.order[p + 1..])
  }

  /** A pointer stays where it is, or moves to a node that every node not taken is on the far side of. */
  ghost predicate LeftMove(v: View, n: nat, l: Ptr)
    requires Sizes(v) && n < |v.items| && v.owner[n] < |v.chains|
  {
    var chain := v.chains[v.owner[n]];
    l == v.left[v.owner[n]]
    || (&& l.node == n
        && forall i {:trigger chain[i]} :: 0 <= i < |chain| && chain[i] < |v.items| && !v.items[chain[i]].taken ==>
             v.items[n].index <= v.items[chain[i]].index)
  }

  ghost predicate RightMove(v: View, n: nat, r: Ptr)
    requires Sizes(v) && n < |v.items| && v.owner[n] < |v.chains|
  {
    var chain := v.chains[v.owner[n]];
    r == v.right[v.owner[n]]
    || (&& r.node == n
        && forall i {:trigger chain[i]} :: 0 <= i < |chain| && chain[i] < |v.items| && !v.items[chain[i]].taken ==>
             v.items[chain[i]].index <= v.items[n].index)
  }

  lemma TakeBetween(v: View, clock: nat, p: nat, l: Ptr, r: Ptr)
    requires Inv(v, clock, None) && p < |v.order|
    requires AtOrder(v, p) && LeftMove(v, v.order[p], l) && RightMove(v, v.order[p], r)
    ensures var v' := Take(v, p, l, r);
            var t := v.owner[v.order[p]];
            Between(v'.items, v'.chains[t], l, r)
  {
    hide Ordered, Linked, Sorted, Stamped;
    var n := v.order[p];
    var t := v.owner[n];
    AtList(v, clock, None, t);
    assert !v.items[n].taken;
    var i :| 0 <= i < |v.chains[t]| && v.chains[t][i] == n;
    AtBetween(v.items, v.chains[t], v.left[t], v.right[t], i);
  }

  ghost predicate AtOrder(v: View, p: nat) {
    && Sizes(v) && p < |v.order| && v.order[p] < |v.items| && !v.items[v.order[p]].taken
    && v.owner[v.order[p]] < |v.chains| && v.order[p] in v.chains[v.owner[v.order[p]]]
  }

  lemma OrderFacts(v: View, clock: nat, pending: Option<nat>, p: nat)
    requires Inv(v, clock, pending) && p < |v.order|
    ensures AtOrder(v, p)
  {
    hide ListOk, Stamped;
    assert v.order[p] in v.order;
  }

  lemma TakeList(v: View, clock: nat, p: nat, l: Ptr, r: Ptr)
    requires Inv(v, clock, None) && p < |v.order|
    requires AtOrder(v, p) && LeftMove(v, v.order[p], l) && RightMove(v, v.order[p], r)
    ensures var v' := Take(v, p, l, r); ListOk(v', v.owner[v.order[p]])
  {
    hide Ordered, NothingLost, Between, Stamped;
    var v' := Take(v, p, l, r);
    var t := v.owner[v.order[p]];
    var chain := v.chains[t];
    AtList(v, clock, None, t);
    TakeBetween(v, clock, p, l, r);
    forall i | 0 <= i < |chain| ensures LinkOk(v'.items, chain, i) {
      AtLink(v.items, chain, i);
    }
  }

  /** Nothing occurs twice in the order. */
  lemma OrderUnique(v: View, i: nat, j: nat)
    requires Ordered(v) && i < |v.order| && j < |v.order| && v.order[i] == v.order[j]
    ensures i == j
  {
    assert v.order[i] in v.order;
    BeforeIsStrictOrder(v.items[v.order[i]], v.items[v.order[j]], v.items[v.order[j]]);
  }

  lemma Without(s: seq<nat>, p: nat, x: nat)
    requires p < |s|
    ensures x in s && x != s[p] ==> x in s[..p] + s[p + 1..]
    ensures x in s[..p] + s[p + 1..] ==> exists i: nat :: i < |s| && i != p && s[i] == x
  {
    var s' := s[..p] + s[p + 1..];
    if x in s' {
      var i :| 0 <= i < |s'| && s'[i] == x;
      assert s[if i < p then i else i + 1] == x;
    }
    if x in s && x != s[p] {
      var i :| 0 <= i < |s| && s[i] == x;
      assert s'[if i < p then i else i - 1] == x;
    }
  }

  lemma TakeMembers(v: View, p: nat, l: Ptr, r: Ptr, n: nat)
    requires Ordered(v) && AtOrder(v, p)
    ensures var v' := Take(v, p, l, r); n in v'.order <==> n < |v'.items| && !v'.items[n].taken
  {
    var v' := Take(v, p, l, r);
    Without(v.order, p, n);
    if n in v'.order {
      var i: nat :| i < |v.order| && i != p && v.order[i] == n;
      assert v.order[i] in v.order;
      if n == v.order[p] {
        OrderUnique(v, i, p);
      }
    }
  }

  lemma TakeOrdered(v: View, p: nat, l: Ptr, r: Ptr)
    requires Ordered(v) && AtOrder(v, p)
    ensures Ordered(Take(v, p, l, r))
  {
    var v' := Take(v, p, l, r);
    forall n: nat ensures n in v'.order <==> n < |v'.items| && !v'.items[n].taken {
      TakeMembers(v, p, l, r, n);
    }
    forall i, j | 0 <= i < j < |v'.order| && v'.order[i] < |v'.items| && v'.order[j] < |v'.items|
      ensures Before(v'.items[v'.order[i]], v'.items[v'.order[j]])
    {
      var a, b := if i < p then i else i + 1, if j < p then j else j + 1;
      assert v'.order[i] == v.order[a] && v'.order[j] == v.order[b];
    }
  }

  lemma TakeContents(v: View, p: nat, l: Ptr, r: Ptr)
    requires AtOrder(v, p)
    ensures Contents(Take(v, p, l, r)) == Contents(v)[..p] + Contents(v)[p + 1..]
  {
    var v' := Take(v, p, l, r);
    assert Values(v'.items, v'.order) == Values(v.items, v.order)[..p] + Values(v.items, v.order)[p + 1..];
  }

  lemma TakeInv(v: View, clock: nat, p: nat, l: Ptr, r: Ptr)
    requires Inv(v, clock, None) && p < |v.order|
    requires AtOrder(v, p) && LeftMove(v, v.order[p], l) && RightMove(v, v.order[p], r)
    ensures Inv(Take(v, p, l, r), clock, None)
    ensures Contents(Take(v, p, l, r)) == Contents(v)[..p] + Contents(v)[p + 1..]
  {
    hide Ordered, ListOk, LeftMove, RightMove;
    var v' := Take(v, p, l, r);
    TakeOrdered(v, p, l, r);
    TakeContents(v, p, l, r);
    TakeList(v, clock, p, l, r);
    forall u | 0 <= u < |v'.chains| ensures ListOk(v', u) {
      if u != v.owner[v.order[p]] {
        OtherList(v, v', clock, None, u);
      }
    }
  }

  // ------------------------------------------------------------------ the search for an end

  /** `r` is the leftmost node of the list of thread `t` that is not taken, if there is one. */
  ghost predicate Leftmost(v: View, t: nat, r: Option<nat>)
    requires Sizes(v) && t < |v.chains|
  {
    var chain := v.chains[t];
    match r
    case None => forall i {:trigger chain[i]} :: 0 <= i < |chain| && chain[i] < |v.items| ==> v.items[chain[i]].taken
    case Some(x) =>
      && InList(v.items, chain, x) && !v.items[x].taken
      && forall i {:trigger chain[i]} :: 0 <= i < |chain| && chain[i] < |v.items| && !v.items[chain[i]].taken ==>
           v.items[x].index <= v.items[chain[i]].index
  }

  ghost predicate Rightmost(v: View, t: nat, r: Option<nat>)
    requires Sizes(v) && t < |v.chains|
  {
    var chain := v.chains[t];
    match r
    case None => forall i {:trigger chain[i]} :: 0 <= i < |chain| && chain[i] < |v.items| ==> v.items[chain[i]].taken
    case Some(x) =>
      && InList(v.items, chain, x) && !v.items[x].taken
      && forall i {:trigger chain[i]} :: 0 <= i < |chain| && chain[i] < |v.items| && !v.items[chain[i]].taken ==>
           v.items[chain[i]].index <= v.items[x].index
  }

  /** `r` is the leftmost of all nodes not taken in the lists of some threads. */
  ghost predicate Best(v: View, visited: set<nat>, r: Option<nat>)
    requires Sizes(v)
  {
    && (r.Some? ==> r.value < |v.items| && !v.items[r.value].taken)
    && forall n: nat {:trigger v.items[n]} :: n < |v.items| && !v.items[n].taken && v.owner[n] in visited ==>
         r.Some? && (r.value == n || Before(v.items[r.value], v.items[n]))
  }

  lemma LeftmostBefore(v: View, clock: nat, t: nat, x: nat, n: nat)
    requires Inv(v, clock, None) && t < |v.chains| && Leftmost(v, t, Some(x))
    requires n < |v.items| && !v.items[n].taken && v.owner[n] == t
    ensures x == n || Before(v.items[x], v.items[n])
  {
    hide Ordered, Stamped, Linked, Between, Owned;
    AtList(v, clock, None, t);
    var chain := v.chains[t];
    var i :| 0 <= i < |chain| && chain[i] == x;
    assert n in chain;
    var j :| 0 <= j < |chain| && chain[j] == n;
  }

  /** Of two nodes that are not taken, one is before the other. */
  lemma BeforeTotal(v: View, a: nat, b: nat)
    requires Ordered(v) && a < |v.items| && b < |v.items| && !v.items[a].taken && !v.items[b].taken && a != b
    ensures Before(v.items[a], v.items[b]) || Before(v.items[b], v.items[a])
  {
    hide Before;
    assert a in v.order && b in v.order;
    var i :| 0 <= i < |v.order| && v.order[i] == a;
    var j :| 0 <= j < |v.order| && v.order[j] == b;
  }

  /** What the search does with the leftmost node of one more list. */
  function Better(v: View, r: Option<nat>, item: Option<nat>): Option<nat>
    requires item.Some? ==> item.value < |v.items|
    requires r.Some? ==> r.value < |v.items|
  {
    if item.Some? && (r.None? || Before(v.items[item.value], v.items[r.value])) then item else r
  }

  lemma BestStep(v: View, clock: nat, visited: set<nat>, r: Option<nat>, t: nat, item: Option<nat>)
    requires Inv(v, clock, None) && Best(v, visited, r) && t < |v.chains| && Leftmost(v, t, item)
    requires item.Some? ==> item.value < |v.items|
    ensures Best(v, visited + {t}, Better(v, r, item))
  {
    hide ListOk, Stamped;
    var b := Better(v, r, item);
    forall n: nat | n < |v.items| && !v.items[n].taken && v.owner[n] in visited + {t}
      ensures b.Some? && (b.value == n || Before(v.items[b.value], v.items[n]))
    {
      BestOne(v, clock, visited, r, t, item, n);
    }
  }

  lemma LeftmostExists(v: View, t: nat, r: Option<nat>, n: nat)
    requires Sizes(v) && t < |v.chains| && Leftmost(v, t, r)
    requires n < |v.items| && n in v.chains[t] && !v.items[n].taken
    ensures r.Some?
  {
  }

  lemma BestOne(v: View, clock: nat, visited: set<nat>, r: Option<nat>, t: nat, item: Option<nat>, n: nat)
    requires Inv(v, clock, None) && Best(v, visited, r) && t < |v.chains| && Leftmost(v, t, item)
    requires item.Some? ==> item.value < |v.items|
    requires n < |v.items| && !v.items[n].taken && v.owner[n] in visited + {t}
    ensures var b := Better(v, r, item); b.Some? && (b.value == n || Before(v.items[b.value], v.items[n]))
  {
    hide ListOk, Stamped, Ordered, Before;
    if v.owner[n] == t {
      LeftmostExists(v, t, item, n);
      LeftmostBefore(v, clock, t, item.value, n);
    }
    if item.Some? && r.Some? {
      if item.value != r.value { BeforeTotal(v, item.value, r.value); }
      BeforeIsStrictOrder(v.items[item.value], v.items[r.value], v.items[n]);
      BeforeIsStrictOrder(v.items[r.value], v.items[item.value], v.items[n]);
    }
  }

  /** A search of all lists finds the left end of the deque. */
  lemma BestOfAll(v: View, clock: nat, visited: set<nat>, r: Option<nat>)
    requires Inv(v, clock, None) && Best(v, visited, r)
    requires forall t :: 0 <= t < |v.chains| ==> t in visited
    ensures r == if |v.order| == 0 then None else Some(v.order[0])
    ensures |Contents(v)| == |v.order|
  {
    hide ListOk, Stamped;
    if r.Some? {
      assert r.value in v.order;
    }
    if |v.order| > 0 {
      OrderFacts(v, clock, None, 0);
      var i :| 0 <= i < |v.order| && v.order[i] == r.value;
      BeforeIsStrictOrder(v.items[v.order[0]], v.items[r.value], v.items[r.value]);
    }
  }

  // ------------------------------------------------------------------ the search for the right end

  lemma RightmostMirrors(v: View, t: nat, r: Option<nat>)
    requires Sizes(v) && t < |v.chains| && Rightmost(v, t, r)
    ensures Leftmost(Mirror(v), t, r)
  {
    var w := Mirror(v);
    assert w.chains[t] == Reverse(v.chains[t]);
    if r.Some? {
      ReverseMember(v.chains[t], r.value);
    }
    forall i | 0 <= i < |w.chains[t]|
      ensures w.chains[t][i] == v.chains[t][|v.chains[t]| - 1 - i]
    {
    }
  }

  lemma MirrorBetter(v: View, clock: nat, r: Option<nat>, item: Option<nat>)
    requires Inv(v, clock, None)
    requires item.Some? ==> item.value < |v.items| && !v.items[item.value].taken
    requires r.Some? ==> r.value < |v.items| && !v.items[r.value].taken
    ensures Better(Mirror(v), r, item) ==
            if item.Some? && (r.None? || IsMoreRight(v.items[item.value], v.items[item.value].timestamp,
                                                     v.items[r.value], v.items[r.value].timestamp))
            then item else r
  {
    hide ListOk, Ordered, Stamped;
  }

  /** `r` is the rightmost of all nodes not taken in the lists of some threads. */
  ghost predicate BestRight(v: View, visited: set<nat>, r: Option<nat>)
    requires Sizes(v)
  {
    Best(Mirror(v), visited, r)
  }

  function BetterRight(v: View, r: Option<nat>, item: Option<nat>): Option<nat>
    requires item.Some? ==> item.value < |v.items|
    requires r.Some? ==> r.value < |v.items|
  {
    if item.Some? && (r.None? || IsMoreRight(v.items[item.value], v.items[item.value].timestamp,
                                             v.items[r.value], v.items[r.value].timestamp)) then item else r
  }

  lemma BestRightStep(v: View, clock: nat, visited: set<nat>, r: Option<nat>, t: nat, item: Option<nat>)
    requires Inv(v, clock, None) && BestRight(v, visited, r) && t < |v.chains| && Rightmost(v, t, item)
    requires item.Some? ==> item.value < |v.items|
    requires r.Some? ==> r.value < |v.items|
    ensures BestRight(v, visited + {t}, BetterRight(v, r, item))
  {
    hide ListOk, NothingLost, Ordered, Stamped;
    MirrorInv(v, clock, None);
    RightmostMirrors(v, t, item);
    BestStep(Mirror(v), clock, visited, r, t, item);
    assert r.Some? ==> Mirror(v).items[r.value] == Flip(v.items[r.value]);
    MirrorBetter(v, clock, r, item);
  }

  lemma BestRightOfAll(v: View, clock: nat, visited: set<nat>, r: Option<nat>)
    requires Inv(v, clock, None) && BestRight(v, visited, r)
    requires forall t :: 0 <= t < |v.chains| ==> t in visited
    ensures r == if |v.order| == 0 then None else Some(v.order[|v.order| - 1])
    ensures |Contents(v)| == |v.order|
  {
    MirrorInv(v, clock, None);
    BestOfAll(Mirror(v), clock, visited, r);
  }
}
