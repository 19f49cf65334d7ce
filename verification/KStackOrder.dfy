/** How far the k-stack may leave the order of a stack when operations run one at a time: every item in an
    upper segment is younger than every item below it, so that a pop returns one of the k youngest items,
    and fewer than k older items are popped before any item. Items are distinct and not NULL. */
module KStackOrder {
  import opened Basics
  import opened Segments
  import opened KStackModel

  /** The stack with its history: the items in the order in which they were pushed, the segment each one was
      put in, the items that were in the stack when it was pushed, and the items popped. */
  datatype View = View(k: nat, segs: seq<Segment>, top: Ptr, live: seq<nat>,
                       pushed: seq<int>, segOf: seq<nat>, presentAt: seq<set<nat>>, popped: set<int>)

  // ------------------------------------------------------------------ the invariant

  ghost predicate SegOk(v: View, s: nat)
    requires s < |v.segs|
  {
    |v.segs[s].items| == v.k && (s in v.live ==> v.segs[s].remove == 0)
  }

  ghost predicate LinkOk(v: View, i: nat) {
    i < |v.live| && v.live[i] < |v.segs| ==> v.segs[v.live[i]].next == if i > 0 then v.live[i - 1] else NIL
  }

  ghost predicate Shape(v: View) {
    && v.k > 0 && |v.live| > 0 && v.top.seg == v.live[|v.live| - 1]
    && (forall i {:trigger v.live[i]} :: 0 <= i < |v.live| ==> v.live[i] < |v.segs|)
    && (forall i, j {:trigger v.live[i], v.live[j]} :: 0 <= i < j < |v.live| ==> v.live[i] < v.live[j])
    && (forall i: nat {:trigger LinkOk(v, i)} :: LinkOk(v, i))
    && forall s: nat {:trigger v.segs[s]} :: s < |v.segs| ==> SegOk(v, s)
  }

  ghost predicate HasItem(segs: seq<Segment>, s: nat, x: int) {
    s < |segs| && exists i :: 0 <= i < |segs[s].items| && segs[s].items[i].value == x
  }

  ghost predicate PushOk(v: View, i: nat)
    requires i < |v.pushed| == |v.segOf|
  {
    && v.pushed[i] != NULL
    && (v.pushed[i] !in v.popped ==> HasItem(v.segs, v.segOf[i], v.pushed[i]) && v.segOf[i] in v.live)
  }

  ghost predicate SlotOk(v: View, s: nat, i: nat)
    requires s < |v.segs| && i < |v.segs[s].items| && |v.pushed| == |v.segOf|
  {
    var x := v.segs[s].items[i].value;
    x != NULL ==>
      && x !in v.popped && (exists a :: 0 <= a < |v.pushed| && v.pushed[a] == x && v.segOf[a] == s)
      && forall j :: 0 <= j < |v.segs[s].items| && j != i ==> v.segs[s].items[j].value != x
  }

  ghost predicate Pushes(v: View) {
    && |v.pushed| == |v.segOf|
    && (forall i, j {:trigger v.pushed[i], v.pushed[j]} :: 0 <= i < j < |v.pushed| ==> v.pushed[i] != v.pushed[j])
    && (forall i: nat {:trigger v.pushed[i]} :: i < |v.pushed| ==> PushOk(v, i))
    && (forall x {:trigger x in v.popped} :: x in v.popped ==> x in v.pushed)
  }

  ghost predicate Slots(v: View) {
    |v.pushed| == |v.segOf| && forall s: nat, i: nat {:trigger v.segs[s].items[i]} ::
      s < |v.segs| && i < |v.segs[s].items| ==> SlotOk(v, s, i)
  }

  /** Of two items in the stack, the one in an upper segment is younger. */
  ghost predicate Layered(v: View) {
    && |v.pushed| == |v.segOf|
    && forall i, j {:trigger v.pushed[i], v.pushed[j]} :: 0 <= i < j < |v.pushed| && v.pushed[i] !in v.popped && v.pushed[j] !in v.popped ==>
         v.segOf[i] <= v.segOf[j]
  }

  /** The items in a segment. */
  function InSegment(pushed: seq<int>, segOf: seq<nat>, popped: set<int>, s: nat): set<nat>
    requires |pushed| == |segOf|
  {
    set i: nat | i < |pushed| && pushed[i] !in popped && segOf[i] == s
  }

  /** The older items in the segment of item `i`. */
  function OlderBeside(pushed: seq<int>, segOf: seq<nat>, popped: set<int>, i: nat): set<nat>
    requires i < |pushed| == |segOf|
  {
    set j: nat | j < i && pushed[j] !in popped && segOf[j] == segOf[i]
  }

  /** The items among `present` that have been popped. */
  function Overtaking(pushed: seq<int>, popped: set<int>, present: set<nat>): set<nat> {
    set j: nat | j in present && j < |pushed| && pushed[j] in popped
  }

  lemma Append(pushed: seq<int>, segOf: seq<nat>, popped: set<int>, x: int, t: nat, s: nat)
    requires |pushed| == |segOf| && x !in popped
    ensures InSegment(pushed + [x], segOf + [t], popped, s) ==
            InSegment(pushed, segOf, popped, s) + if s == t then {|pushed|} else {}
    ensures OlderBeside(pushed + [x], segOf + [t], popped, |pushed|) == InSegment(pushed, segOf, popped, t)
    ensures forall i: nat {:trigger OlderBeside(pushed + [x], segOf + [t], popped, i)} :: i < |pushed| ==>
              OlderBeside(pushed + [x], segOf + [t], popped, i) == OlderBeside(pushed, segOf, popped, i)
  {
  }

  lemma AppendOvertaking(pushed: seq<int>, popped: set<int>, x: int, present: set<nat>)
    requires x !in popped
    ensures Overtaking(pushed + [x], popped, present) == Overtaking(pushed, popped, present)
  {
  }

  ghost predicate DistinctFrom(pushed: seq<int>, a: nat) {
    a < |pushed| && forall j {:trigger pushed[j]} :: 0 <= j < |pushed| && j != a ==> pushed[j] != pushed[a]
  }

  lemma Pop(pushed: seq<int>, segOf: seq<nat>, popped: set<int>, a: nat, s: nat)
    requires |pushed| == |segOf| && DistinctFrom(pushed, a) && pushed[a] !in popped
    ensures InSegment(pushed, segOf, popped, s) ==
            InSegment(pushed, segOf, popped + {pushed[a]}, s) + if s == segOf[a] then {a} else {}
    ensures a !in InSegment(pushed, segOf, popped + {pushed[a]}, s)
  {
  }

  lemma PopBeside(pushed: seq<int>, segOf: seq<nat>, popped: set<int>, a: nat, i: nat)
    requires |pushed| == |segOf| && DistinctFrom(pushed, a) && pushed[a] !in popped && i < |pushed|
    ensures OlderBeside(pushed, segOf, popped, i) ==
            OlderBeside(pushed, segOf, popped + {pushed[a]}, i) + if a < i && segOf[a] == segOf[i] then {a} else {}
    ensures a !in OlderBeside(pushed, segOf, popped + {pushed[a]}, i)
  {
  }

  lemma PopOvertaking(pushed: seq<int>, popped: set<int>, a: nat, present: set<nat>)
    requires DistinctFrom(pushed, a)
    ensures Overtaking(pushed, popped + {pushed[a]}, present) <=
            Overtaking(pushed, popped, present) + if a in present then {a} else {}
  {
  }

  /** The items that may still overtake item `i` are beside it. */
  ghost predicate BudgetOk(v: View, i: nat)
    requires i < |v.pushed| == |v.segOf| == |v.presentAt|
  {
    v.pushed[i] !in v.popped ==>
      |Overtaking(v.pushed, v.popped, v.presentAt[i])| + |OlderBeside(v.pushed, v.segOf, v.popped, i)| < v.k
  }

  ghost predicate Budget(v: View) {
    && |v.pushed| == |v.segOf| == |v.presentAt|
    && (forall s: nat {:trigger v.segs[s]} :: s < |v.segs| ==> |InSegment(v.pushed, v.segOf, v.popped, s)| == Filled(v.segs[s].items))
    && (forall i: nat {:trigger v.pushed[i]} :: i < |v.pushed| ==> BudgetOk(v, i))
    && (forall i: nat {:trigger v.presentAt[i]} :: i < |v.presentAt| ==> forall j {:trigger j in v.presentAt[i]} :: j in v.presentAt[i] ==> j < i)
  }

  ghost predicate Inv(v: View) {
    Shape(v) && Pushes(v) && Slots(v) && Layered(v) && Budget(v)
  }

  lemma AtPush(v: View, i: nat)
    requires Pushes(v) && i < |v.pushed|
    ensures PushOk(v, i)
  {
  }

  lemma AtSlot(v: View, s: nat, i: nat)
    requires Slots(v) && s < |v.segs| && i < |v.segs[s].items|
    ensures SlotOk(v, s, i)
  {
  }

  lemma AtBudget(v: View, i: nat)
    requires Budget(v) && i < |v.pushed|
    ensures BudgetOk(v, i)
  {
  }

  lemma AtLink(v: View, i: nat)
    requires Shape(v)
    ensures LinkOk(v, i)
  {
  }

  lemma InitInv(k: nat)
    requires k > 0
    ensures Inv(View(k, [NewSegment(k, NIL)], Ptr(0, 0), [0], [], [], [], {}))
  {
    var v := View(k, [NewSegment(k, NIL)], Ptr(0, 0), [0], [], [], [], {});
    NoneFilled(NewSegment(k, NIL).items);
    assert SegOk(v, 0);
    forall i: nat ensures LinkOk(v, i) {}
    forall s: nat, i: nat | s < |v.segs| && i < |v.segs[s].items| ensures SlotOk(v, s, i) {}
    assert InSegment(v.pushed, v.segOf, v.popped, 0) == {};
  }

  // ------------------------------------------------------------------ push

  function SetSlotIn(segs: seq<Segment>, s: nat, i: nat, slot: Slot): (segs': seq<Segment>)
    requires s < |segs| && i < |segs[s].items|
    ensures |segs'| == |segs|
  {
    segs[s := segs[s].(items := segs[s].items[i := slot])]
  }

  /** The items in the stack. */
  function Present(v: View): set<nat> {
    set i: nat | i < |v.pushed| && v.pushed[i] !in v.popped
  }

  function Put(v: View, i: nat, slot: Slot): View
    requires 0 <= v.top.seg < |v.segs| && i < |v.segs[v.top.seg].items|
  {
    v.(segs := SetSlotIn(v.segs, v.top.seg, i, slot), pushed := v.pushed + [slot.value], segOf := v.segOf + [v.top.seg],
       presentAt := v.presentAt + [Present(v)])
  }

  ghost predicate Puttable(v: View, i: nat, slot: Slot) {
    && Inv(v) && 0 <= v.top.seg < |v.segs| && i < v.k == |v.segs[v.top.seg].items| && v.segs[v.top.seg].items[i].value == NULL
    && slot.value != NULL && slot.value !in v.pushed
  }

  lemma PutPushes(v: View, i: nat, slot: Slot)
    requires Puttable(v, i, slot)
    ensures Pushes(Put(v, i, slot))
  {
    hide Slots, Layered, Budget;
    var v' := Put(v, i, slot);
    assert v.live[|v.live| - 1] in v.live;
    forall a: nat | a < |v'.pushed| ensures PushOk(v', a) {
      if a < |v.pushed| {
        AtPush(v, a);
        if v.pushed[a] !in v.popped {
          var j :| 0 <= j < |v.segs[v.segOf[a]].items| && v.segs[v.segOf[a]].items[j].value == v.pushed[a];
          assert v'.segs[v.segOf[a]].items[j].value == v.pushed[a];
        }
      } else {
        assert v'.segs[v.top.seg].items[i].value == slot.value;
      }
    }
  }

  lemma PutSlots(v: View, i: nat, slot: Slot)
    requires Puttable(v, i, slot)
    ensures Slots(Put(v, i, slot))
  {
    hide Layered, Budget, Shape;
    var v' := Put(v, i, slot);
    forall s: nat, j: nat | s < |v'.segs| && j < |v'.segs[s].items| ensures SlotOk(v', s, j) {
      AtSlot(v, s, j);
      var x := v'.segs[s].items[j].value;
      if s == v.top.seg && j == i {
        assert v'.pushed[|v.pushed|] == x && v'.segOf[|v.pushed|] == s;
        forall j1 | 0 <= j1 < |v'.segs[s].items| && j1 != j ensures v'.segs[s].items[j1].value != x {
          AtSlot(v, s, j1);
        }
      } else if x != NULL {
        var a :| 0 <= a < |v.pushed| && v.pushed[a] == x && v.segOf[a] == s;
        assert v'.pushed[a] == x && v'.segOf[a] == s;
      }
    }
  }

  lemma PutShape(v: View, i: nat, slot: Slot)
    requires Puttable(v, i, slot)
    ensures Shape(Put(v, i, slot)) && Layered(Put(v, i, slot))
  {
    hide Slots, Budget;
    var v' := Put(v, i, slot);
    forall s: nat | s < |v'.segs| ensures SegOk(v', s) {
      assert SegOk(v, s);
    }
    forall l: nat ensures LinkOk(v', l) {
      AtLink(v, l);
    }
    forall a, b | 0 <= a < b < |v'.pushed| && v'.pushed[a] !in v.popped && v'.pushed[b] !in v.popped
      ensures v'.segOf[a] <= v'.segOf[b]
    {
      AtPush(v, a);
    }
  }

  /** The size of a set that gains or loses one element. */
  lemma SizeWith(s: set<nat>, s': set<nat>, x: nat)
    requires x !in s && s' == s + {x}
    ensures |s'| == |s| + 1
  {
  }

  lemma AtCount(v: View, s: nat)
    requires Budget(v) && s < |v.segs|
    ensures |InSegment(v.pushed, v.segOf, v.popped, s)| == Filled(v.segs[s].items)
  {
  }

  lemma PutCount(v: View, i: nat, slot: Slot, s: nat)
    requires Puttable(v, i, slot) && s < |v.segs|
    ensures var v' := Put(v, i, slot); |InSegment(v'.pushed, v'.segOf, v'.popped, s)| == Filled(v'.segs[s].items)
  {
    AtCount(v, s);
    FilledAfter(v.segs[v.top.seg].items, i, slot);
    assert slot.value !in v.popped;
    hide Inv, Filled, InSegment;
    Append(v.pushed, v.segOf, v.popped, slot.value, v.top.seg, s);
    NewIndex(v, s);
  }

  lemma NewIndex(v: View, s: nat)
    requires |v.pushed| == |v.segOf|
    ensures |v.pushed| !in InSegment(v.pushed, v.segOf, v.popped, s)
  {
  }

  lemma PutBudgetOf(v: View, i: nat, slot: Slot, a: nat)
    requires Puttable(v, i, slot) && a <= |v.pushed|
    ensures BudgetOk(Put(v, i, slot), a)
  {
    AtCount(v, v.top.seg);
    FilledAfter(v.segs[v.top.seg].items, i, slot);
    assert slot.value !in v.popped;
    if a < |v.pushed| { AtBudget(v, a); }
    hide Slots, Shape, Layered, Pushes, Filled, InSegment, OlderBeside, Overtaking;
    Append(v.pushed, v.segOf, v.popped, slot.value, v.top.seg, v.top.seg);
    if a < |v.pushed| {
      AppendOvertaking(v.pushed, v.popped, slot.value, v.presentAt[a]);
    } else {
      AppendOvertaking(v.pushed, v.popped, slot.value, Present(v));
      NoneOvertaking(v);
    }
  }

  lemma NoneOvertaking(v: View)
    ensures Overtaking(v.pushed, v.popped, Present(v)) == {}
  {
  }

  lemma PutBudget(v: View, i: nat, slot: Slot)
    requires Puttable(v, i, slot)
    ensures Budget(Put(v, i, slot))
  {
    var v' := Put(v, i, slot);
    forall s: nat | s < |v'.segs| ensures |InSegment(v'.pushed, v'.segOf, v'.popped, s)| == Filled(v'.segs[s].items) {
      PutCount(v, i, slot, s);
    }
    forall a: nat | a < |v'.pushed| ensures BudgetOk(v', a) {
      PutBudgetOf(v, i, slot, a);
    }
    hide Slots, Shape, Layered, InSegment, BudgetOk;
  }

  /** Putting an item into a free slot of the segment on top. */
  lemma PutInv(v: View, i: nat, slot: Slot)
    requires Puttable(v, i, slot)
    ensures Inv(Put(v, i, slot))
  {
    PutPushes(v, i, slot);
    PutSlots(v, i, slot);
    PutShape(v, i, slot);
    PutBudget(v, i, slot);
  }

  /** A new segment on top. */
  function Grow(v: View): View {
    v.(segs := v.segs + [NewSegment(v.k, v.top.seg)], top := Ptr(|v.segs|, v.top.aba), live := v.live + [|v.segs|])
  }

  lemma GrowShape(v: View)
    requires Inv(v)
    ensures Shape(Grow(v))
  {
    hide Slots, Pushes, Layered, Budget;
    var v' := Grow(v);
    forall s: nat | s < |v'.segs| ensures SegOk(v', s) {
      assert s < |v.segs| ==> SegOk(v, s);
    }
    forall l: nat ensures LinkOk(v', l) {
      AtLink(v, l);
    }
  }

  lemma GrowPushes(v: View)
    requires Inv(v)
    ensures Pushes(Grow(v)) && Slots(Grow(v))
  {
    hide Shape, Layered, Budget;
    var v' := Grow(v);
    forall a: nat | a < |v.pushed| ensures PushOk(v', a) {
      AtPush(v, a);
      if v.pushed[a] !in v.popped {
        var j :| 0 <= j < |v.segs[v.segOf[a]].items| && v.segs[v.segOf[a]].items[j].value == v.pushed[a];
        assert v'.segs[v.segOf[a]].items[j].value == v.pushed[a];
      }
    }
    forall s: nat, j: nat | s < |v'.segs| && j < |v'.segs[s].items| ensures SlotOk(v', s, j) {
      if s < |v.segs| { AtSlot(v, s, j); }
    }
  }

  lemma GrowBudget(v: View)
    requires Inv(v)
    ensures Budget(Grow(v)) && Layered(Grow(v))
  {
    hide Slots, Shape;
    var v' := Grow(v);
    NoneFilled(NewSegment(v.k, v.top.seg).items);
    forall s: nat | s < |v'.segs| ensures |InSegment(v'.pushed, v'.segOf, v'.popped, s)| == Filled(v'.segs[s].items) {
      if s == |v.segs| {
        forall a: nat | a < |v.pushed| ensures a !in InSegment(v.pushed, v.segOf, v.popped, s) {
          AtPush(v, a);
        }
        assert InSegment(v.pushed, v.segOf, v.popped, s) == {};
      } else {
        AtCount(v, s);
      }
    }
    forall a: nat | a < |v.pushed| ensures BudgetOk(v', a) {
      AtBudget(v, a);
    }
  }

  lemma GrowInv(v: View)
    requires Inv(v)
    ensures Inv(Grow(v))
  {
    GrowShape(v);
    GrowPushes(v);
    GrowBudget(v);
  }

  // ------------------------------------------------------------------ pop

  /** An item is taken from a slot of the segment on top. */
  function Take(v: View, i: nat): View
    requires 0 <= v.top.seg < |v.segs| && i < |v.segs[v.top.seg].items|
  {
    var slot := v.segs[v.top.seg].items[i];
    v.(segs := SetSlotIn(v.segs, v.top.seg, i, Slot(NULL, slot.aba + 1)), popped := v.popped + {slot.value})
  }

  ghost predicate Takeable(v: View, i: nat) {
    Inv(v) && 0 <= v.top.seg < |v.segs| && i < v.k == |v.segs[v.top.seg].items| && v.segs[v.top.seg].items[i].value != NULL
  }

  lemma TakePushes(v: View, i: nat)
    requires Takeable(v, i)
    ensures Pushes(Take(v, i)) && Slots(Take(v, i))
  {
    hide Shape, Layered, Budget;
    var v' := Take(v, i);
    AtSlot(v, v.top.seg, i);
    forall a: nat | a < |v.pushed| ensures PushOk(v', a) {
      AtPush(v, a);
      if v.pushed[a] !in v'.popped {
        var j :| 0 <= j < |v.segs[v.segOf[a]].items| && v.segs[v.segOf[a]].items[j].value == v.pushed[a];
        assert v'.segs[v.segOf[a]].items[j].value == v.pushed[a];
      }
    }
    forall s: nat, j: nat | s < |v'.segs| && j < |v'.segs[s].items| ensures SlotOk(v', s, j) {
      AtSlot(v, s, j);
      forall j1 | 0 <= j1 < |v'.segs[s].items| && j1 != j
        ensures v'.segs[s].items[j].value != NULL ==> v'.segs[s].items[j1].value != v'.segs[s].items[j].value
      {
        AtSlot(v, s, j1);
      }
      if s != v.top.seg || j != i { TakenElsewhere(v, i, s, j); }
    }
  }

  /** The taken item is in no other slot. */
  lemma TakenElsewhere(v: View, i: nat, s: nat, j: nat)
    requires Takeable(v, i) && s < |v.segs| && j < |v.segs[s].items| && (s != v.top.seg || j != i)
    ensures v.segs[s].items[j].value != v.segs[v.top.seg].items[i].value
  {
    hide Shape, Layered, Budget;
    AtSlot(v, v.top.seg, i);
    AtSlot(v, s, j);
  }

  lemma TakeShape(v: View, i: nat)
    requires Takeable(v, i)
    ensures Shape(Take(v, i)) && Layered(Take(v, i))
  {
    hide Slots, Budget, Pushes;
    var v' := Take(v, i);
    forall s: nat | s < |v'.segs| ensures SegOk(v', s) {
      assert SegOk(v, s);
    }
    forall l: nat ensures LinkOk(v', l) {
      AtLink(v, l);
    }
  }

  lemma LiveBelowTop(v: View, s: nat)
    requires Shape(v) && s in v.live
    ensures s <= v.top.seg
  {
  }

  /** When the item in a slot of the segment on top was pushed; all younger items are beside it. */
  lemma PushOf(v: View, i: nat) returns (a: nat)
    requires Takeable(v, i)
    ensures a < |v.pushed| == |v.segOf| && v.pushed[a] == v.segs[v.top.seg].items[i].value && v.pushed[a] !in v.popped
    ensures v.segOf[a] == v.top.seg
    ensures forall j: nat {:trigger v.pushed[j]} :: a < j < |v.pushed| && v.pushed[j] !in v.popped ==> v.segOf[j] == v.top.seg
  {
    hide Budget;
    AtSlot(v, v.top.seg, i);
    hide Slots;
    a :| 0 <= a < |v.pushed| && v.pushed[a] == v.segs[v.top.seg].items[i].value && v.segOf[a] == v.top.seg;
    forall j: nat | a < j < |v.pushed| && v.pushed[j] !in v.popped ensures v.segOf[j] == v.top.seg {
      AtPush(v, j);
      LiveBelowTop(v, v.segOf[j]);
      AtLayer(v, a, j);
    }
  }

  lemma AtLayer(v: View, i: nat, j: nat)
    requires Layered(v) && i < j < |v.pushed| && v.pushed[i] !in v.popped && v.pushed[j] !in v.popped
    ensures v.segOf[i] <= v.segOf[j]
  {
  }

  /** Item `a` is the one in slot `i` of the segment on top. */
  ghost predicate OnTop(v: View, i: nat, a: nat) {
    && Takeable(v, i) && a < |v.pushed| == |v.segOf| && v.pushed[a] == v.segs[v.top.seg].items[i].value
    && v.pushed[a] !in v.popped && v.segOf[a] == v.top.seg
    && forall j: nat {:trigger v.pushed[j]} :: a < j < |v.pushed| && v.pushed[j] !in v.popped ==> v.segOf[j] == v.top.seg
  }

  lemma Distinct(v: View, a: nat, b: nat)
    requires Pushes(v) && a < |v.pushed| && b < |v.pushed| && a != b
    ensures v.pushed[a] != v.pushed[b]
  {
  }

  lemma OnTopDistinct(v: View, i: nat, a: nat)
    requires OnTop(v, i, a)
    ensures DistinctFrom(v.pushed, a) && Take(v, i).popped == v.popped + {v.pushed[a]}
  {
    forall j | 0 <= j < |v.pushed| && j != a ensures v.pushed[j] != v.pushed[a] {
      Distinct(v, a, j);
    }
  }

  lemma TakeBudgetOf(v: View, i: nat, a: nat, b: nat)
    requires OnTop(v, i, a) && b < |v.pushed|
    ensures BudgetOk(Take(v, i), b)
  {
    var popped := v.popped + {v.pushed[a]};
    OnTopDistinct(v, i, a);
    AtBudget(v, b);
    hide Shape, Pushes, Slots, Layered, Overtaking, OlderBeside, DistinctFrom;
    if v.pushed[b] !in popped {
      PopBeside(v.pushed, v.segOf, v.popped, a, b);
      var before, after := Overtaking(v.pushed, v.popped, v.presentAt[b]), Overtaking(v.pushed, popped, v.presentAt[b]);
      PopOvertaking(v.pushed, v.popped, a, v.presentAt[b]);
      if a < b {
        Subset(after, before + {a});
        SizeWith(OlderBeside(v.pushed, v.segOf, popped, b), OlderBeside(v.pushed, v.segOf, v.popped, b), a);
      } else {
        Subset(after, before);
      }
    }
  }

  lemma FilledSet(segs: seq<Segment>, t: nat, i: nat, slot: Slot, s: nat)
    requires t < |segs| && i < |segs[t].items| && s < |segs|
    requires segs[t].items[i].value != NULL && slot.value == NULL
    ensures s == t ==> Filled(SetSlotIn(segs, t, i, slot)[s].items) == Filled(segs[s].items) - 1
    ensures s != t ==> SetSlotIn(segs, t, i, slot)[s] == segs[s]
  {
    FilledAfter(segs[t].items, i, slot);
  }

  lemma CountAfter(pushed: seq<int>, segOf: seq<nat>, popped: set<int>, a: nat, s: nat)
    requires |pushed| == |segOf| && DistinctFrom(pushed, a) && pushed[a] !in popped
    ensures s == segOf[a] ==>
              |InSegment(pushed, segOf, popped + {pushed[a]}, s)| == |InSegment(pushed, segOf, popped, s)| - 1
    ensures s != segOf[a] ==> InSegment(pushed, segOf, popped + {pushed[a]}, s) == InSegment(pushed, segOf, popped, s)
  {
    Pop(pushed, segOf, popped, a, s);
    if s == segOf[a] {
      SizeWith(InSegment(pushed, segOf, popped + {pushed[a]}, s), InSegment(pushed, segOf, popped, s), a);
    }
  }

  lemma CountTaken(segs: seq<Segment>, i: nat, slot: Slot, pushed: seq<int>, segOf: seq<nat>, popped: set<int>, a: nat, s: nat)
    requires a < |pushed| == |segOf| && DistinctFrom(pushed, a) && pushed[a] !in popped && s < |segs|
    requires segOf[a] < |segs| && i < |segs[segOf[a]].items| && segs[segOf[a]].items[i].value != NULL && slot.value == NULL
    requires |InSegment(pushed, segOf, popped, s)| == Filled(segs[s].items)
    ensures |InSegment(pushed, segOf, popped + {pushed[a]}, s)| == Filled(SetSlotIn(segs, segOf[a], i, slot)[s].items)
  {
    hide Filled, InSegment, DistinctFrom, SetSlotIn;
    FilledSet(segs, segOf[a], i, slot, s);
    CountAfter(pushed, segOf, popped, a, s);
  }

  lemma TakeCount(v: View, i: nat, a: nat, s: nat)
    requires OnTop(v, i, a) && s < |v.segs|
    ensures var v' := Take(v, i); |InSegment(v'.pushed, v'.segOf, v'.popped, s)| == Filled(v'.segs[s].items)
  {
    hide Shape, Pushes, Slots, Layered, Budget, Filled, InSegment, DistinctFrom, SetSlotIn;
    OnTopDistinct(v, i, a);
    AtCount(v, s);
    assert v.segOf[a] == v.top.seg;
    CountTaken(v.segs, i, Slot(NULL, v.segs[v.top.seg].items[i].aba + 1), v.pushed, v.segOf, v.popped, a, s);
  }

  lemma TakeBudget(v: View, i: nat)
    requires Takeable(v, i)
    ensures Budget(Take(v, i))
  {
    var v' := Take(v, i);
    var a := PushOf(v, i);
    forall s: nat | s < |v'.segs| ensures |InSegment(v'.pushed, v'.segOf, v'.popped, s)| == Filled(v'.segs[s].items) {
      TakeCount(v, i, a, s);
    }
    forall b: nat | b < |v'.pushed| ensures BudgetOk(v', b) {
      TakeBudgetOf(v, i, a, b);
    }
    hide Slots, Shape, Layered, Pushes, InSegment, BudgetOk;
  }

  lemma TakeInv(v: View, i: nat)
    requires Takeable(v, i)
    ensures Inv(Take(v, i))
  {
    TakePushes(v, i);
    TakeShape(v, i);
    TakeBudget(v, i);
  }

  /** The segment on top is removed; its counter stays at one. */
  function Drop(v: View): View
    requires 0 <= v.top.seg < |v.segs| && |v.live| > 0
  {
    var s := v.top.seg;
    v.(segs := v.segs[s := v.segs[s].(remove := v.segs[s].remove + 1)], top := Ptr(v.segs[s].next, v.top.aba + 1),
       live := v.live[..|v.live| - 1])
  }

  ghost predicate Droppable(v: View) {
    && Inv(v) && 0 <= v.top.seg < |v.segs| && v.segs[v.top.seg].next != NIL
    && forall i {:trigger v.segs[v.top.seg].items[i]} :: 0 <= i < |v.segs[v.top.seg].items| ==>
         v.segs[v.top.seg].items[i].value == NULL
  }

  lemma DropShape(v: View)
    requires Droppable(v)
    ensures Shape(Drop(v)) && |v.live| > 1
  {
    hide Slots, Pushes, Layered, Budget;
    var v' := Drop(v);
    AtLink(v, |v.live| - 1);
    forall s: nat | s < |v'.segs| ensures SegOk(v', s) {
      assert SegOk(v, s);
    }
    forall l: nat ensures LinkOk(v', l) {
      AtLink(v, l);
    }
  }

  lemma DropPushes(v: View)
    requires Droppable(v)
    ensures Pushes(Drop(v)) && Slots(Drop(v))
  {
    hide Layered, Budget;
    var v' := Drop(v);
    forall a: nat | a < |v.pushed| ensures PushOk(v', a) {
      AtPush(v, a);
      if v.pushed[a] !in v.popped {
        var j :| 0 <= j < |v.segs[v.segOf[a]].items| && v.segs[v.segOf[a]].items[j].value == v.pushed[a];
        assert v'.segs[v.segOf[a]].items[j].value == v.pushed[a];
        var l :| 0 <= l < |v.live| && v.live[l] == v.segOf[a];
        assert v'.live[l] == v.segOf[a];
      }
    }
    forall s: nat, j: nat | s < |v'.segs| && j < |v'.segs[s].items| ensures SlotOk(v', s, j) {
      AtSlot(v, s, j);
    }
  }

  lemma DropBudget(v: View)
    requires Droppable(v)
    ensures Budget(Drop(v)) && Layered(Drop(v))
  {
    hide Slots, LinkOk, SegOk;
    var v' := Drop(v);
    forall s: nat | s < |v'.segs| ensures |InSegment(v'.pushed, v'.segOf, v'.popped, s)| == Filled(v'.segs[s].items) {
      AtCount(v, s);
    }
    forall a: nat | a < |v.pushed| ensures BudgetOk(v', a) {
      AtBudget(v, a);
    }
  }

  lemma DropInv(v: View)
    requires Droppable(v)
    ensures Inv(Drop(v))
  {
    DropShape(v);
    DropPushes(v);
    DropBudget(v);
  }

  // ------------------------------------------------------------------ the bounds

  /** Fewer than k of the items below an item when it was pushed are popped before it. */
  lemma BoundedOvertaking(v: View, i: nat)
    requires Inv(v) && i < |v.pushed| && v.pushed[i] !in v.popped
    ensures i < |v.presentAt| && |Overtaking(v.pushed, v.popped, v.presentAt[i])| < v.k
  {
    AtBudget(v, i);
  }

  /** The younger items in the stack. */
  function Younger(pushed: seq<int>, popped: set<int>, a: nat): set<nat> {
    set j: nat | a < j < |pushed| && pushed[j] !in popped
  }

  /** An item in the segment on top is one of the k youngest. */
  lemma AmongTheYoungest(v: View, i: nat) returns (a: nat)
    requires Takeable(v, i)
    ensures a < |v.pushed| && v.pushed[a] == v.segs[v.top.seg].items[i].value && v.pushed[a] !in v.popped
    ensures |Younger(v.pushed, v.popped, a)| < v.k
  {
    a := PushOf(v, i);
    var s := v.top.seg;
    AtCount(v, s);
    assert Younger(v.pushed, v.popped, a) + {a} <= InSegment(v.pushed, v.segOf, v.popped, s);
    Subset(Younger(v.pushed, v.popped, a) + {a}, InSegment(v.pushed, v.segOf, v.popped, s));
    SizeWith(Younger(v.pushed, v.popped, a), Younger(v.pushed, v.popped, a) + {a}, a);
  }

  /** When the only segment is empty, everything has been popped. */
  lemma NothingLeft(v: View)
    requires Inv(v) && 0 <= v.top.seg < |v.segs| && v.segs[v.top.seg].next == NIL
    requires forall i {:trigger v.segs[v.top.seg].items[i]} :: 0 <= i < v.k ==> v.segs[v.top.seg].items[i].value == NULL
    ensures forall i {:trigger v.pushed[i]} :: 0 <= i < |v.pushed| ==> v.pushed[i] in v.popped
  {
    hide Budget, Layered, Slots;
    AtLink(v, |v.live| - 1);
    assert |v.live| == 1;
    assert SegOk(v, v.top.seg);
    forall i | 0 <= i < |v.pushed| ensures v.pushed[i] in v.popped {
      AtPush(v, i);
    }
  }

  // ------------------------------------------------------------------ the operations

  ghost predicate HasFree(segs: seq<Segment>, s: int) {
    0 <= s < |segs| && exists i :: 0 <= i < |segs[s].items| && segs[s].items[i].value == NULL
  }

  lemma TopLive(v: View)
    requires Inv(v)
    ensures 0 <= v.top.seg < |v.segs| && |v.segs[v.top.seg].items| == v.k > 0 && v.segs[v.top.seg].remove == 0
    ensures 0 < |v.live|
  {
    assert SegOk(v, v.live[|v.live| - 1]);
  }

  class KStack {
    const k: nat
    var segs: seq<Segment>
    var top: Ptr
    ghost var live: seq<nat>
    ghost var pushed: seq<int>
    ghost var segOf: seq<nat>
    ghost var presentAt: seq<set<nat>>
    ghost var popped: set<int>

    ghost function Snapshot(): View
      reads this
    {
      View(k, segs, top, live, pushed, segOf, presentAt, popped)
    }

    ghost predicate Valid()
      reads this
    {
      Inv(Snapshot())
    }

    constructor (k: nat)
      requires k > 0
      ensures Valid() && this.k == k && pushed == [] && popped == {}
    {
      this.k := k;
      segs, top, live := [NewSegment(k, NIL)], Ptr(0, 0), [0];
      pushed, segOf, presentAt, popped := [], [], [], {};
      new;
      InitInv(k);
    }

    /** is_empty: the second pass finds what the first one recorded, so the first one decides. */
    method IsEmpty(s: nat) returns (r: bool)
      requires k > 0 && s < |segs| && |segs[s].items| == k
      ensures r <==> NoItems(segs[s].items)
    {
      hide Visit;
      var random: nat := *;
      var records: map<nat, Slot> := map[];
      for i := 0 to k
        invariant forall j: nat {:trigger Visit(random, j, k)} :: j < i ==>
                    Visit(random, j, k) in records && segs[s].items[Visit(random, j, k)].value == NULL
        invariant forall n: nat {:trigger records[n]} :: n in records ==> n < k && records[n] == segs[s].items[n]
      {
        var at := Visit(random, i, k);
        if segs[s].items[at].value != NULL {
          return false;
        }
        records := records[at := segs[s].items[at]];
      }
      for i := 0 to k
        invariant forall j: nat {:trigger Visit(random, j, k)} :: j < k ==>
                    Visit(random, j, k) in records && segs[s].items[Visit(random, j, k)].value == NULL
        invariant forall n: nat {:trigger records[n]} :: n in records ==> n < k && records[n] == segs[s].items[n]
      {
        var at := Visit(random, i, k);
        if segs[s].items[at] != records[at] {
          return false;
        }
      }
      forall i | 0 <= i < k ensures segs[s].items[i].value == NULL {
        var j := VisitsAll(random, k, i);
      }
      return true;
    }

    /** try_add_new_ksegment adds a segment if top has not moved. */
    method TryAddSegment(topOld: Ptr)
      modifies this`segs, this`top, this`live
      ensures Snapshot() == if topOld == old(top) then Grow(old(Snapshot())) else old(Snapshot())
    {
      if top == topOld {
        segs := segs + [NewSegment(k, topOld.seg)];
        live := live + [|segs| - 1];
        top := Ptr(|segs| - 1, topOld.aba);
      }
    }

    /** try_remove_ksegment removes the segment on top if it is empty and not the last one, and else leaves
        everything as it was. */
    method TryRemoveSegment(topOld: Ptr)
      requires Valid() && 0 <= topOld.seg < |segs|
      modifies this`segs, this`top, this`live
      ensures Snapshot() == if topOld == old(top) && old(segs)[topOld.seg].next != NIL && NoItems(old(segs)[topOld.seg].items)
                            then Drop(old(Snapshot())) else old(Snapshot())
    {
      TopLive(Snapshot());
      var next := segs[top.seg].next;
      if top == topOld && next != NIL {
        var s := topOld.seg;
        segs := segs[s := segs[s].(remove := segs[s].remove + 1)];
        var empty := IsEmpty(s);
        if empty && top == topOld {
          top := Ptr(segs[s].next, topOld.aba + 1);
          live := live[..|live| - 1];
          return;
        }
        segs := segs[s := segs[s].(remove := segs[s].remove - 1)];
      }
    }

    /** committed: whether an item put into a slot stays there, when nobody interferes. It does unless the
        segment is being removed and is not on top. */
    method Committed(topOld: Ptr, newItem: Slot, index: nat) returns (ok: bool)
      requires 0 <= topOld.seg < |segs| && index < |segs[topOld.seg].items| && segs[topOld.seg].remove >= 0
      modifies this`segs, this`top
      ensures ok <==> old(segs)[topOld.seg].items[index] != newItem || old(segs)[topOld.seg].remove == 0 || old(top) == topOld
      ensures segs == if ok then old(segs) else SetSlotIn(old(segs), topOld.seg, index, Slot(NULL, newItem.aba + 1))
      ensures top == if old(segs)[topOld.seg].items[index] == newItem && old(segs)[topOld.seg].remove > 0 && old(top) == topOld
                     then Ptr(old(top).seg, old(top).aba + 1) else old(top)
    {
      if segs[topOld.seg].items[index] != newItem {
        return true;
      } else if segs[topOld.seg].remove == 0 {
        return true;
      } else if segs[topOld.seg].remove >= 1 {
        if top != topOld {
          segs := SetSlotIn(segs, topOld.seg, index, Slot(NULL, newItem.aba + 1));
        } else {
          top := Ptr(topOld.seg, topOld.aba + 1);
          return true;
        }
      }
      return false;
    }

    /** The item is the last one pushed; nothing else changes. */
    method Push(item: int)
      requires Valid() && item != NULL && item !in pushed
      modifies this
      ensures Valid() && pushed == old(pushed) + [item] && popped == old(popped)
      ensures presentAt == old(presentAt) + [Present(old(Snapshot()))]
    {
      hide Shape, Pushes, Slots, Layered, Budget;
      while true
        invariant Valid() && pushed == old(pushed) && popped == old(popped) && presentAt == old(presentAt)
        decreases !HasFree(segs, top.seg)
      {
        var topOld := top;
        ghost var v := Snapshot();
        TopLive(v);
        var index, slot := FindIndex(segs[topOld.seg].items, true);
        if index.Some? {
          var newItem := Slot(item, slot.aba + 1);
          PutInv(v, index.value, newItem);
          segs := SetSlotIn(segs, topOld.seg, index.value, newItem);
          pushed, segOf, presentAt := pushed + [item], segOf + [topOld.seg], presentAt + [Present(v)];
          assert Snapshot() == Put(v, index.value, newItem);
          TopLive(Snapshot());
          var ok := Committed(topOld, newItem, index.value);
          if ok {
            return;
          }
        } else {
          GrowInv(v);
          TryAddSegment(topOld);
          assert segs[top.seg].items[0].value == NULL;
        }
      }
    }

    /** The answer is false exactly if everything that was pushed has been popped; otherwise the item is one
        that had not been, and fewer than k younger ones are in the stack. */
    method Pop() returns (ok: bool, item: int, ghost a: nat)
      requires Valid()
      modifies this
      ensures Valid() && pushed == old(pushed) && presentAt == old(presentAt)
      ensures !ok ==> popped == old(popped) && forall i {:trigger pushed[i]} :: 0 <= i < |pushed| ==> pushed[i] in popped
      ensures ok ==> a < |pushed| && item == pushed[a] && item !in old(popped) && popped == old(popped) + {item}
      ensures ok ==> |Younger(pushed, old(popped), a)| < k
    {
      hide Shape, Pushes, Slots, Layered, Budget;
      while true
        invariant Valid() && pushed == old(pushed) && popped == old(popped) && presentAt == old(presentAt)
        decreases |live|
      {
        var topOld := top;
        ghost var v := Snapshot();
        TopLive(v);
        var index, slot := FindIndex(segs[topOld.seg].items, false);
        if index.Some? {
          a := AmongTheYoungest(v, index.value);
          TakeInv(v, index.value);
          if segs[top.seg].items[index.value] == slot {
            segs := SetSlotIn(segs, top.seg, index.value, Slot(NULL, slot.aba + 1));
            popped := popped + {slot.value};
            assert Snapshot() == Take(v, index.value);
            return true, slot.value, a;
          }
        } else if segs[topOld.seg].next == NIL {
          NothingLeft(v);
          var empty := IsEmpty(topOld.seg);
          if empty && top == topOld {
            return false, NULL, 0;
          }
        } else {
          DropInv(v);
          TryRemoveSegment(topOld);
        }
      }
    }
  }
}
