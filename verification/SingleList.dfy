/** The sequential queue: a singly linked list with a sentinel. */
module SingleLists {

  class Node<T> {
    var next: Node?<T>
    var value: T

    constructor (value: T)
      ensures this.value == value
    {
      this.value, next := value, null;
    }
  }

  class SingleList<T> {
    /** What a failed dequeue hands out. */
    const NULL: T
    var head: Node<T>
    var tail: Node<T>
    /** The sentinel and the nodes behind it. */
    ghost var nodes: seq<Node<T>>
    ghost var Repr: set<Node<T>>
    /** Everything ever enqueued, oldest first. */
    ghost var added: seq<T>

    ghost predicate Valid()
      reads this, Repr
    {
      && (forall i {:trigger nodes[i]} :: 0 <= i < |nodes| ==> nodes[i] in Repr)
      && |nodes| > 0 && head == nodes[0] && tail == nodes[|nodes| - 1]
      && (forall i :: 0 <= i < |nodes| - 1 ==> nodes[i].next == nodes[i + 1])
      && (forall i, j :: 0 <= i < j < |nodes| ==> nodes[i] != nodes[j])
    }

    /** The queue, oldest first. */
    ghost function Contents(): seq<T>
      requires Valid()
      reads this, Repr
    {
      seq(|nodes| - 1, i requires Valid() && 0 <= i < |nodes| - 1 reads this, Repr => nodes[i + 1].value)
    }

    constructor (sentinel: T)
      ensures Valid() && Contents() == [] && added == [] && fresh(Repr) && NULL == sentinel
    {
      var n := new Node(sentinel);
      NULL, head, tail, nodes, Repr, added := sentinel, n, n, [n], {n}, [];
    }

    method IsEmpty() returns (empty: bool)
      requires Valid()
      ensures empty <==> Contents() == []
    {
      empty := head == tail;
      assert |nodes| > 1 ==> nodes[0] != nodes[|nodes| - 1];
    }

    method Enqueue(item: T)
      requires Valid()
      modifies this, Repr
      ensures Valid() && Contents() == old(Contents()) + [item] && added == old(added) + [item]
      ensures fresh(Repr - old(Repr))
    {
      var n := new Node(item);
      ghost var before := nodes;
      tail.next := n;
      tail := n;
      nodes, Repr, added := nodes + [n], Repr + {n}, added + [item];
      assert forall i :: 0 <= i < |before| ==> nodes[i] == before[i] && nodes[i].value == old(before[i].value);
    }

    method Dequeue() returns (ok: bool, item: T)
      requires Valid()
      modifies this
      ensures Valid()
      ensures if old(Contents()) == [] then !ok && item == NULL && Contents() == []
              else ok && item == old(Contents())[0] && Contents() == old(Contents())[1..]
      ensures Repr == old(Repr) && added == old(added)
    {
      assert |nodes| > 1 ==> nodes[0] != nodes[|nodes| - 1];
      if head == tail {
        return false, NULL;
      }
      assert nodes[0].next == nodes[1];
      item := head.next.value;
      head := head.next;
      nodes := nodes[1..];
      return true, item;
    }
  }
}
