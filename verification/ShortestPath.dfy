/** Breadth-first search with parents and early exit: the distances are those of shortest paths. */
module ShortestPath {
  import opened Basics
  import opened SingleLists

  /** The neighbours of each vertex. */
  type Graph = seq<seq<nat>>

  predicate WellFormed(g: Graph) {
    forall u, i {:trigger g[u][i]} :: 0 <= u < |g| && 0 <= i < |g[u]| ==> g[u][i] < |g|
  }

  // ------------------------------------------------------------------ paths

  predicate IsPath(g: Graph, p: seq<nat>, root: nat, v: nat) {
    && |p| > 0 && p[0] == root && p[|p| - 1] == v
    && (forall i {:trigger p[i]} :: 0 <= i < |p| ==> p[i] < |g|)
    && forall i :: 0 <= i < |p| - 1 ==> p[i + 1] in g[p[i]]
  }

  ghost predicate Reachable(g: Graph, root: nat, v: nat) {
    exists p :: IsPath(g, p, root, v)
  }

  /** No path from the root to `v` has fewer than `d` edges. */
  ghost predicate AtLeast(g: Graph, root: nat, v: nat, d: nat) {
    forall p {:trigger IsPath(g, p, root, v)} :: IsPath(g, p, root, v) ==> |p| - 1 >= d
  }

  /** A shortest path from the root to `v` has `d` edges. */
  ghost predicate Distance(g: Graph, root: nat, v: nat, d: nat) {
    AtLeast(g, root, v, d) && exists p :: IsPath(g, p, root, v) && |p| - 1 == d
  }

  // ------------------------------------------------------------------ the state of the search

  type Distances = seq<Option<nat>>
  type Parents = seq<Option<nat>>

  /** Vertex `v` has been marked with its distance; it is the root, or one edge from its parent, which is
      one closer to the root. */
  ghost predicate MarkOk(g: Graph, root: nat, dist: Distances, par: Parents, v: nat) {
    v < |dist| && v < |g| && v < |par| && dist[v].Some? ==>
      && AtLeast(g, root, v, dist[v].value)
      && if v == root then dist[v].value == 0
         else
           && par[v].Some? && par[v].value < |dist| && par[v].value < |g| && dist[par[v].value].Some?
           && dist[v].value == dist[par[v].value].value + 1 && v in g[par[v].value]
  }

  ghost predicate Marks(g: Graph, root: nat, dist: Distances, par: Parents) {
    && |dist| == |par| == |g| && root < |g| && WellFormed(g)
    && dist[root] == Some(0)
    && forall v: nat {:trigger MarkOk(g, root, dist, par, v)} :: MarkOk(g, root, dist, par, v)
  }

  /** The vertices that wait in the queue are marked, in the order of their distances, which are `d` or
      `d + 1`, and none waits twice. */
  ghost predicate Waiting(dist: Distances, queue: seq<nat>, d: nat) {
    && (forall i {:trigger queue[i]} :: 0 <= i < |queue| ==>
          queue[i] < |dist| && dist[queue[i]].Some? && d <= dist[queue[i]].value <= d + 1)
    && (forall i, j {:trigger queue[i], queue[j]} :: 0 <= i < j < |queue| && queue[i] < |dist| && queue[j] < |dist|
                                                     && dist[queue[i]].Some? && dist[queue[j]].Some? ==>
          dist[queue[i]].value <= dist[queue[j]].value)
    && (forall i, j {:trigger queue[i], queue[j]} :: 0 <= i < j < |queue| ==> queue[i] != queue[j])
  }

  /** The first `n` neighbours of `u` are marked. */
  predicate MarkedUpTo(g: Graph, dist: Distances, u: nat, n: nat) {
    u < |g| ==> forall i {:trigger g[u][i]} :: 0 <= i < n && i < |g[u]| && g[u][i] < |dist| ==> dist[g[u][i]].Some?
  }

  /** Every marked vertex waits in the queue, or is the current one, or all its neighbours are marked. */
  ghost predicate Closed(g: Graph, dist: Distances, queue: seq<nat>, current: Option<nat>) {
    forall v: nat {:trigger MarkedUpTo(g, dist, v, |g[v]|)} :: v < |g| && v < |dist| && dist[v].Some? ==>
      v in queue || current == Some(v) || MarkedUpTo(g, dist, v, |g[v]|)
  }

  // ------------------------------------------------------------------ optimality

  lemma PrefixIsPath(g: Graph, p: seq<nat>, root: nat, v: nat, j: nat)
    requires IsPath(g, p, root, v) && j < |p|
    ensures IsPath(g, p[..j + 1], root, p[j])
  {
    var q := p[..j + 1];
    forall i | 0 <= i < |q| - 1 ensures q[i + 1] in g[q[i]] {
      assert q[i] == p[i] && q[i + 1] == p[i + 1];
    }
  }

  /** A path that leaves the marked vertices does so from a marked vertex with an unmarked neighbour. */
  lemma {:induction false} Crossing(g: Graph, dist: Distances, p: seq<nat>, root: nat, v: nat, n: nat) returns (j: nat)
    requires IsPath(g, p, root, v) && |dist| == |g| && dist[root].Some? && n < |p| && dist[p[n]].None?
    ensures j < n && dist[p[j]].Some? && dist[p[j + 1]].None? && p[j + 1] in g[p[j]]
  {
    if n > 0 && dist[p[n - 1]].None? {
      j := Crossing(g, dist, p, root, v, n - 1);
    } else {
      j := n - 1;
      assert p[n - 1 + 1] in g[p[n - 1]];
    }
  }

  /** While every vertex whose neighbours are not all marked has distance at least `d`, a path to an
      unmarked vertex has more than `d` edges. */
  lemma UnmarkedIsFar(g: Graph, root: nat, dist: Distances, par: Parents, queue: seq<nat>, current: Option<nat>, d: nat, v: nat)
    requires Marks(g, root, dist, par) && Closed(g, dist, queue, current) && Waiting(dist, queue, d)
    requires current.Some? ==> current.value < |dist| && dist[current.value] == Some(d)
    requires v < |g| && dist[v].None?
    ensures AtLeast(g, root, v, d + 1)
  {
    forall p | IsPath(g, p, root, v) ensures |p| - 1 >= d + 1 {
      var j := Crossing(g, dist, p, root, v, |p| - 1);
      var u := p[j];
      PrefixIsPath(g, p, root, v, j);
      assert MarkOk(g, root, dist, par, u);
      NotClosed(g, dist, u, p[j + 1]);
      assert u in queue || current == Some(u);
      if u in queue {
        var i :| 0 <= i < |queue| && queue[i] == u;
      }
    }
  }

  lemma NotClosed(g: Graph, dist: Distances, u: nat, v: nat)
    requires |dist| == |g| && u < |g| && v in g[u] && v < |dist| && dist[v].None?
    ensures !MarkedUpTo(g, dist, u, |g[u]|)
  {
    var i :| 0 <= i < |g[u]| && g[u][i] == v;
  }

  /** Marking a neighbour of the current vertex. */
  lemma MarkNeighbour(g: Graph, root: nat, dist: Distances, par: Parents, queue: seq<nat>, u: nat, v: nat)
    requires Marks(g, root, dist, par) && u < |g| && dist[u].Some? && Waiting(dist, queue, dist[u].value)
    requires Closed(g, dist, queue, Some(u)) && v in g[u] && v < |g| && dist[v].None?
    ensures var d := dist[u].value;
            var dist', par' := dist[v := Some(d + 1)], par[v := Some(u)];
            Marks(g, root, dist', par') && Waiting(dist', queue + [v], d)
  {
    var d := dist[u].value;
    var dist', par' := dist[v := Some(d + 1)], par[v := Some(u)];
    UnmarkedIsFar(g, root, dist, par, queue, Some(u), d, v);
    forall w: nat ensures MarkOk(g, root, dist', par', w) {
      assert MarkOk(g, root, dist, par, w);
    }
    assert forall i :: 0 <= i < |queue| ==> queue[i] != v;
  }

  lemma MarkedStay(g: Graph, dist: Distances, v: nat, d: nat, u: nat, n: nat)
    requires v < |dist| && MarkedUpTo(g, dist, u, n)
    ensures MarkedUpTo(g, dist[v := Some(d)], u, n)
  {
  }

  lemma ClosedAfterMark(g: Graph, dist: Distances, queue: seq<nat>, u: nat, v: nat, d: nat)
    requires Closed(g, dist, queue, Some(u)) && v < |dist| == |g|
    ensures Closed(g, dist[v := Some(d)], queue + [v], Some(u))
  {
    var dist' := dist[v := Some(d)];
    forall w: nat | w < |g| && dist'[w].Some?
      ensures w in queue + [v] || w == u || MarkedUpTo(g, dist', w, |g[w]|)
    {
      if w == v {
        assert (queue + [v])[|queue|] == v;
      } else {
        assert w in queue || w == u || MarkedUpTo(g, dist, w, |g[w]|);
        if MarkedUpTo(g, dist, w, |g[w]|) { MarkedStay(g, dist, v, d, w, |g[w]|); }
      }
    }
  }

  // ------------------------------------------------------------------ what the marks mean

  /** Following the parents of a marked vertex leads to the root along a shortest path. */
  lemma {:induction false} ParentPath(g: Graph, root: nat, dist: Distances, par: Parents, v: nat) returns (p: seq<nat>)
    requires Marks(g, root, dist, par) && v < |g| && dist[v].Some?
    ensures IsPath(g, p, root, v) && |p| - 1 == dist[v].value
    ensures forall i :: 0 < i < |p| ==> p[i] < |par| && par[p[i]] == Some(p[i - 1])
    decreases dist[v].value
  {
    assert MarkOk(g, root, dist, par, v);
    if v == root {
      p := [root];
    } else {
      var u := par[v].value;
      var q := ParentPath(g, root, dist, par, u);
      p := q + [v];
      forall i | 0 <= i < |p| - 1 ensures p[i + 1] in g[p[i]] {
        if i < |q| - 1 { assert q[i + 1] in g[q[i]]; }
      }
    }
  }

  lemma MarkIsDistance(g: Graph, root: nat, dist: Distances, par: Parents, v: nat)
    requires Marks(g, root, dist, par) && v < |g| && dist[v].Some?
    ensures Distance(g, root, v, dist[v].value)
  {
    assert MarkOk(g, root, dist, par, v);
    var p := ParentPath(g, root, dist, par, v);
  }

  /** When the queue is empty, every reachable vertex is marked. */
  lemma AllReached(g: Graph, root: nat, dist: Distances, par: Parents, v: nat)
    requires Marks(g, root, dist, par) && Closed(g, dist, [], None) && v < |g|
    ensures dist[v].Some? <==> Reachable(g, root, v)
  {
    if dist[v].Some? {
      var p := ParentPath(g, root, dist, par, v);
    } else if Reachable(g, root, v) {
      var p :| IsPath(g, p, root, v);
      var j := Crossing(g, dist, p, root, v, |p| - 1);
      NotClosed(g, dist, p[j], p[j + 1]);
    }
  }

  // ------------------------------------------------------------------ the search

  /** The current vertex has been taken from the queue. */
  lemma TakeFirst(g: Graph, root: nat, dist: Distances, queue: seq<nat>, d: nat)
    requires |queue| > 0 && |dist| == |g| && Waiting(dist, queue, d) && Closed(g, dist, queue, None)
    ensures var u := queue[0];
            && u < |g| && dist[u].Some? && u !in queue[1..]
            && Waiting(dist, queue[1..], dist[u].value) && Closed(g, dist, queue[1..], Some(u))
  {
    var u, rest := queue[0], queue[1..];
    assert forall i :: 0 <= i < |rest| ==> rest[i] == queue[i + 1];
    assert forall v: nat :: v in queue ==> v == u || v in rest;
  }

  /** All neighbours of the current vertex are marked. */
  lemma CurrentDone(g: Graph, dist: Distances, queue: seq<nat>, u: nat)
    requires Closed(g, dist, queue, Some(u)) && u < |g| == |dist| && MarkedUpTo(g, dist, u, |g[u]|)
    ensures Closed(g, dist, queue, None)
  {
  }

  /** At the start only the root is marked, and it waits. */
  lemma Start(g: Graph, root: nat, dist: Distances, par: Parents)
    requires WellFormed(g) && root < |g| == |dist| == |par| && dist[root] == Some(0)
    requires forall v {:trigger dist[v]} :: 0 <= v < |g| && v != root ==> dist[v].None?
    ensures Marks(g, root, dist, par) && Waiting(dist, [root], 0) && Closed(g, dist, [root], None)
  {
    forall v: nat ensures MarkOk(g, root, dist, par, v) {}
    assert [root][0] == root;
  }

  /** No vertex occurs twice in the order in which they were enqueued, which is also the order of their
      distances. */
  ghost predicate InOrder(dist: Distances, order: seq<nat>) {
    && (forall i {:trigger order[i]} :: 0 <= i < |order| ==> order[i] < |dist| && dist[order[i]].Some?)
    && (forall i, j {:trigger order[i], order[j]} :: 0 <= i < j < |order| ==>
          && order[i] != order[j]
          && (order[i] < |dist| && order[j] < |dist| && dist[order[i]].Some? && dist[order[j]].Some? ==>
                dist[order[i]].value <= dist[order[j]].value))
  }

  lemma ExtendOrder(dist: Distances, order: seq<nat>, v: nat, d: nat)
    requires InOrder(dist, order) && v < |dist| && dist[v].None?
    requires forall i {:trigger order[i]} :: 0 <= i < |order| && order[i] < |dist| && dist[order[i]].Some? ==> dist[order[i]].value <= d
    ensures InOrder(dist[v := Some(d)], order + [v])
  {
    assert forall i :: 0 <= i < |order| ==> order[i] != v;
  }

  /** The vertices with a distance are those in `order`. */
  ghost predicate Recorded(dist: Distances, order: seq<nat>) {
    forall v: nat {:trigger v in order} :: v < |dist| ==> (dist[v].Some? <==> v in order)
  }

  lemma ExtendRecorded(dist: Distances, order: seq<nat>, v: nat, d: nat)
    requires Recorded(dist, order) && v < |dist|
    ensures Recorded(dist[v := Some(d)], order + [v])
  {
    forall w: nat | w < |dist| ensures dist[v := Some(d)][w].Some? <==> w in order + [v] {
      assert w in order + [v] <==> w in order || w == v;
    }
  }

  /** Nothing enqueued so far is further away than `d`. */
  ghost predicate Near(dist: Distances, order: seq<nat>, d: nat) {
    forall i {:trigger order[i]} :: 0 <= i < |order| && order[i] < |dist| && dist[order[i]].Some? ==> dist[order[i]].value <= d
  }

  /** What the search keeps: `queue` waits, at distance `d` or one more; `current` has its first `n`
      neighbours marked; `order` are the root and the vertices marked since, in this order. */
  ghost predicate Search(g: Graph, root: nat, dist: Distances, par: Parents, queue: seq<nat>, current: Option<nat>, n: nat,
                         d: nat, order: seq<nat>)
  {
    && Marks(g, root, dist, par) && Waiting(dist, queue, d) && Closed(g, dist, queue, current)
    && InOrder(dist, order) && Recorded(dist, order) && Near(dist, order, d + 1)
    && (current.Some? ==> current.value < |g| && dist[current.value] == Some(d) && MarkedUpTo(g, dist, current.value, n))
  }

  lemma SearchStarts(g: Graph, root: nat, dist: Distances, par: Parents)
    requires WellFormed(g) && root < |g| == |dist| == |par| && dist[root] == Some(0)
    requires forall v {:trigger dist[v]} :: 0 <= v < |g| && v != root ==> dist[v].None?
    ensures Search(g, root, dist, par, [root], None, 0, 0, [root])
  {
    Start(g, root, dist, par);
  }

  lemma SearchTakes(g: Graph, root: nat, dist: Distances, par: Parents, queue: seq<nat>, d: nat, order: seq<nat>)
    requires Search(g, root, dist, par, queue, None, 0, d, order) && |queue| > 0
    ensures var u := queue[0];
            u < |g| == |dist| && dist[u].Some? && Search(g, root, dist, par, queue[1..], Some(u), 0, dist[u].value, order)
  {
    TakeFirst(g, root, dist, queue, d);
    assert queue[0] < |dist|;
  }

  lemma SearchMarks(g: Graph, root: nat, dist: Distances, par: Parents, queue: seq<nat>, u: nat, n: nat, d: nat, order: seq<nat>)
    requires Search(g, root, dist, par, queue, Some(u), n, d, order) && n < |g[u]| && dist[g[u][n]].None?
    ensures var v := g[u][n];
            Search(g, root, dist[v := Some(d + 1)], par[v := Some(u)], queue + [v], Some(u), n + 1, d, order + [v])
  {
    hide AtLeast;
    var v := g[u][n];
    MarkNeighbour(g, root, dist, par, queue, u, v);
    ClosedAfterMark(g, dist, queue, u, v, d + 1);
    ExtendOrder(dist, order, v, d + 1);
    ExtendRecorded(dist, order, v, d + 1);
  }

  lemma SearchPasses(g: Graph, root: nat, dist: Distances, par: Parents, queue: seq<nat>, u: nat, n: nat, d: nat, order: seq<nat>)
    requires Search(g, root, dist, par, queue, Some(u), n, d, order)
    ensures u < |g| == |dist| == |par| && dist[u] == Some(d) && root < |g| && dist[root].Some?
    ensures n < |g[u]| ==> g[u][n] < |g|
    ensures n < |g[u]| && dist[g[u][n]].Some? ==> Search(g, root, dist, par, queue, Some(u), n + 1, d, order)
    ensures n >= |g[u]| ==> Search(g, root, dist, par, queue, None, 0, d, order)
  {
    if n >= |g[u]| { CurrentDone(g, dist, queue, u); }
  }

  /** What the marks say about all vertices. */
  ghost predicate Correct(g: Graph, root: nat, dist: Distances, par: Parents)
    requires |dist| == |par| == |g|
  {
    forall v: nat {:trigger dist[v]} :: v < |g| && dist[v].Some? ==>
      && Distance(g, root, v, dist[v].value)
      && (v != root ==>
            && par[v].Some? && par[v].value < |g| && v in g[par[v].value]
            && dist[par[v].value].Some? && dist[v].value == dist[par[v].value].value + 1)
  }

  lemma MarksAreCorrect(g: Graph, root: nat, dist: Distances, par: Parents)
    requires Marks(g, root, dist, par)
    ensures Correct(g, root, dist, par)
    ensures forall v: nat {:trigger dist[v]} :: v < |g| && dist[v].Some? ==> Reachable(g, root, v)
  {
    forall v: nat | v < |g| && dist[v].Some?
      ensures Distance(g, root, v, dist[v].value) && Reachable(g, root, v) && MarkOk(g, root, dist, par, v)
    {
      MarkIsDistance(g, root, dist, par, v);
    }
  }

  lemma SearchIsCorrect(g: Graph, root: nat, dist: Distances, par: Parents, queue: seq<nat>, current: Option<nat>, n: nat,
                        d: nat, order: seq<nat>)
    requires Search(g, root, dist, par, queue, current, n, d, order)
    ensures |dist| == |par| == |g| && Correct(g, root, dist, par) && InOrder(dist, order) && Recorded(dist, order)
    ensures forall v: nat {:trigger dist[v]} :: v < |g| && dist[v].Some? ==> Reachable(g, root, v)
    ensures queue == [] && current.None? ==>
              forall v: nat {:trigger dist[v]} :: v < |g| ==> (dist[v].Some? <==> Reachable(g, root, v))
  {
    MarksAreCorrect(g, root, dist, par);
    if queue == [] && current.None? {
      forall v: nat | v < |g| ensures dist[v].Some? <==> Reachable(g, root, v) {
        AllReached(g, root, dist, par, v);
      }
    }
  }

  /** How many vertices are not marked. */
  function Unmarked(dist: Distances): (n: nat)
    ensures n <= |dist|
  {
    if dist == [] then 0 else Unmarked(dist[1..]) + if dist[0].None? then 1 else 0
  }

  lemma {:induction false} UnmarkedAfter(dist: Distances, v: nat, d: nat)
    requires v < |dist| && dist[v].None?
    ensures Unmarked(dist[v := Some(d)]) == Unmarked(dist) - 1
  {
    if v > 0 {
      UnmarkedAfter(dist[1..], v - 1, d);
      assert dist[v := Some(d)][1..] == dist[1..][v - 1 := Some(d)];
    } else {
      assert dist[v := Some(d)][1..] == dist[1..];
    }
  }

  /** The loop over the neighbours of the current vertex; `found` if the end is among those it marks. What it
      marks it enqueues, in the same order, but for the end. */
  method VisitNeighbours(g: Graph, ghost root: nat, end: nat, distance: array<Option<nat>>, parent: array<Option<nat>>,
                         q: SingleList<nat>, u: nat, ghost queue: seq<nat>, ghost d: nat, ghost order: seq<nat>)
    returns (found: bool, ghost queue': seq<nat>, ghost marked: seq<nat>)
    requires u < |g| && end < |g| && distance.Length == parent.Length == |g| && distance != parent
    requires Search(g, root, distance[..], parent[..], queue, Some(u), 0, d, order)
    requires q.Valid() && q.Contents() == queue && (end == root || distance[end].None?)
    modifies distance, parent, q, q.Repr
    ensures if found then exists n: nat :: Search(g, root, distance[..], parent[..], queue', Some(u), n, d, order + marked)
            else Search(g, root, distance[..], parent[..], queue', None, 0, d, order + marked)
    ensures if found then end != root && distance[end].Some? else end == root || distance[end].None?
    ensures if found then marked != [] && marked[|marked| - 1] == end && q.added == old(q.added) + marked[..|marked| - 1]
            else q.added == old(q.added) + marked
    ensures q.Valid() && fresh(q.Repr - old(q.Repr))
    ensures !found ==> q.Contents() == queue'
    ensures !found ==> |queue'| + Unmarked(distance[..]) == |queue| + Unmarked(old(distance[..]))
  {
    hide Search, Unmarked;
    queue', marked := queue, [];
    assert order + marked == order;
    var i := 0;
    while i < |g[u]|
      invariant 0 <= i <= |g[u]|
      invariant q.Valid() && q.Contents() == queue' && fresh(q.Repr - old(q.Repr)) && q.added == old(q.added) + marked
      invariant Search(g, root, distance[..], parent[..], queue', Some(u), i, d, order + marked)
      invariant |queue'| + Unmarked(distance[..]) == |queue| + Unmarked(old(distance[..]))
      invariant end == root || distance[end].None?
    {
      ghost var dist, par := distance[..], parent[..];
      SearchPasses(g, root, dist, par, queue', u, i, d, order + marked);
      var v := g[u][i];
      if distance[v].None? {
        SearchMarks(g, root, dist, par, queue', u, i, d, order + marked);
        UnmarkedAfter(dist, v, d + 1);
        distance[v] := Some(distance[u].value + 1);
        parent[v] := Some(u);
        assert distance[..] == dist[v := Some(d + 1)] && parent[..] == par[v := Some(u)];
        assert order + (marked + [v]) == order + marked + [v];
        queue', marked := queue' + [v], marked + [v];
        if v == end {
          return true, queue', marked;
        }
        q.Enqueue(v);
      }
      i := i + 1;
    }
    SearchPasses(g, root, distance[..], parent[..], queue', u, i, d, order + marked);
    return false, queue', marked;
  }

  /** From a root at distance zero and all other vertices unset, every vertex that gets a distance gets that
      of a shortest path, along which the parents lead back; the end stays unset exactly if it cannot be
      reached, also when the search stops early. `order` are the vertices that have a distance, each of them
      once; they have been enqueued in this order, but for the root, which was in the queue before, and
      for the end if the search came to it. */
  method Analyze(g: Graph, root: nat, end: nat, distance: array<Option<nat>>, parent: array<Option<nat>>, q: SingleList<nat>)
    returns (ghost order: seq<nat>)
    requires WellFormed(g) && root < |g| && end < |g| && distance.Length == parent.Length == |g| && distance != parent
    requires distance[root] == Some(0) && forall v {:trigger distance[v]} :: 0 <= v < |g| && v != root ==> distance[v].None?
    requires q.Valid() && q.Contents() == [root]
    modifies distance, parent, q, q.Repr
    ensures Correct(g, root, distance[..], parent[..])
    ensures distance[end].Some? <==> Reachable(g, root, end)
    ensures end == root || !Reachable(g, root, end) ==>
              forall v: nat {:trigger distance[v]} :: v < |g| ==> (distance[v].Some? <==> Reachable(g, root, v))
    ensures InOrder(distance[..], order) && Recorded(distance[..], order)
    ensures exists enqueued: seq<nat> :: q.added == old(q.added) + enqueued
              && order == [root] + enqueued + if end != root && distance[end].Some? then [end] else []
  {
    hide Search, Correct, InOrder, Recorded, Reachable, Unmarked;
    order := [root];
    ghost var d := 0;
    ghost var queue := [root];
    ghost var enqueued: seq<nat> := [];
    SearchStarts(g, root, distance[..], parent[..]);
    while true
      invariant q.Valid() && q.Contents() == queue && fresh(q.Repr - old(q.Repr))
      invariant Search(g, root, distance[..], parent[..], queue, None, 0, d, order)
      invariant end == root || distance[end].None?
      invariant q.added == old(q.added) + enqueued && order == [root] + enqueued
      decreases |queue| + Unmarked(distance[..])
    {
      var ok, u := q.Dequeue();
      if !ok {
        break;
      }
      SearchTakes(g, root, distance[..], parent[..], queue, d, order);
      d := distance[u].value;
      var found;
      ghost var marked;
      found, queue, marked := VisitNeighbours(g, root, end, distance, parent, q, u, queue[1..], d, order);
      ghost var more := if found then marked[..|marked| - 1] else marked;
      assert order + marked == [root] + (enqueued + more) + if found then [end] else [];
      assert q.added == old(q.added) + (enqueued + more);
      order, enqueued := order + marked, enqueued + more;
      if found {
        ghost var n: nat :| Search(g, root, distance[..], parent[..], queue, Some(u), n, d, order);
        SearchIsCorrect(g, root, distance[..], parent[..], queue, Some(u), n, d, order);
        return;
      }
    }
    SearchIsCorrect(g, root, distance[..], parent[..], queue, None, 0, d, order);
    assert order == [root] + enqueued + [];
  }
}
