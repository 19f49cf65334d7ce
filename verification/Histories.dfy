/** Logs of linearization events, and what a sequential queue or stack makes of them. */
module Histories {
  import opened Basics

  /** Operation number `op` of thread `tid` added or removed a value, or found nothing to remove. */
  datatype Event =
    | Added(tid: nat, op: nat, value: int)
    | Removed(tid: nat, op: nat, value: int)
    | Missed(tid: nat, op: nat)

  /** Running a sequential FIFO queue over a log of events: None once an event is illegal. */
  function ReplayQueue(log: seq<Event>): Option<seq<int>> {
    if log == [] then Some([]) else
      var before := ReplayQueue(log[..|log| - 1]);
      match before
      case None => None
      case Some(q) =>
        match log[|log| - 1]
        case Added(_, _, v) => Some(q + [v])
        case Removed(_, _, v) => if |q| > 0 && q[0] == v then Some(q[1..]) else None
        case Missed(_, _) => if q == [] then Some(q) else None
  }

  /** Running a sequential stack, top first, over a log of events: None once an event is illegal. */
  function ReplayStack(log: seq<Event>): Option<seq<int>> {
    if log == [] then Some([]) else
      var before := ReplayStack(log[..|log| - 1]);
      match before
      case None => None
      case Some(s) =>
        match log[|log| - 1]
        case Added(_, _, v) => Some([v] + s)
        case Removed(_, _, v) => if |s| > 0 && s[0] == v then Some(s[1..]) else None
        case Missed(_, _) => if s == [] then Some(s) else None
  }

  lemma QueueAppend(log: seq<Event>, e: Event)
    ensures ReplayQueue(log + [e]) ==
            match ReplayQueue(log)
            case None => None
            case Some(q) =>
              match e
              case Added(_, _, v) => Some(q + [v])
              case Removed(_, _, v) => if |q| > 0 && q[0] == v then Some(q[1..]) else None
              case Missed(_, _) => if q == [] then Some(q) else None
  {
    assert (log + [e])[..|log + [e]| - 1] == log;
  }

  lemma StackAppend(log: seq<Event>, e: Event)
    ensures ReplayStack(log + [e]) ==
            match ReplayStack(log)
            case None => None
            case Some(s) =>
              match e
              case Added(_, _, v) => Some([v] + s)
              case Removed(_, _, v) => if |s| > 0 && s[0] == v then Some(s[1..]) else None
              case Missed(_, _) => if s == [] then Some(s) else None
  {
    assert (log + [e])[..|log + [e]| - 1] == log;
  }

  // ------------------------------------------------------------------ one event per operation

  /** All events of thread `t` are of operations before `op`. */
  ghost predicate NoEvent(log: seq<Event>, t: nat, op: nat) {
    forall j {:trigger log[j]} :: 0 <= j < |log| && log[j].tid == t ==> log[j].op < op
  }

  /** The log has exactly one event of operation `e.op` of thread `e.tid`, and none of a later one. */
  ghost predicate OneEvent(log: seq<Event>, e: Event) {
    && (exists j :: 0 <= j < |log| && log[j] == e
                    && forall i {:trigger log[i]} :: 0 <= i < |log| && i != j && log[i].tid == e.tid ==> log[i].op != e.op)
    && NoEvent(log, e.tid, e.op + 1)
  }

  /** The log has grown, but not by events of thread `t`. */
  ghost predicate GrownByOthers(log: seq<Event>, log': seq<Event>, t: nat) {
    && log <= log'
    && forall j {:trigger log'[j]} :: |log| <= j < |log'| ==> log'[j].tid != t
  }

  lemma AppendGrows(log: seq<Event>, e: Event)
    ensures forall t: nat {:trigger GrownByOthers(log, log + [e], t)} :: t != e.tid ==> GrownByOthers(log, log + [e], t)
  {
  }

  lemma StableNoEvent(log: seq<Event>, log': seq<Event>, t: nat, op: nat)
    requires GrownByOthers(log, log', t) && NoEvent(log, t, op)
    ensures NoEvent(log', t, op)
  {
    forall j | 0 <= j < |log'| && log'[j].tid == t ensures log'[j].op < op {
      assert j < |log| ==> log'[j] == log[j];
    }
  }

  lemma StableOneEvent(log: seq<Event>, log': seq<Event>, e: Event)
    requires GrownByOthers(log, log', e.tid) && OneEvent(log, e)
    ensures OneEvent(log', e)
  {
    StableNoEvent(log, log', e.tid, e.op + 1);
    var j :| 0 <= j < |log| && log[j] == e
             && forall i {:trigger log[i]} :: 0 <= i < |log| && i != j && log[i].tid == e.tid ==> log[i].op != e.op;
    forall i | 0 <= i < |log'| && i != j && log'[i].tid == e.tid ensures log'[i].op != e.op {
      assert i < |log| ==> log'[i] == log[i];
    }
    assert log'[j] == log[j];
  }

  /** A thread that appends its first event of this operation has exactly one. */
  lemma FirstEvent(log: seq<Event>, e: Event)
    requires NoEvent(log, e.tid, e.op)
    ensures OneEvent(log + [e], e)
  {
    var log' := log + [e];
    assert log'[|log|] == e;
    forall i | 0 <= i < |log'| && i != |log| && log'[i].tid == e.tid ensures log'[i].op != e.op {
      assert log'[i] == log[i];
    }
  }
}
