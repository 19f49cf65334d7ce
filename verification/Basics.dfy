/** Vocabulary shared by the models of the concurrent containers. */
module Basics {

  /** A pointer that may be NULL, or a value that may be absent. */
  datatype Option<+T> = None | Some(value: T)

  /** The place visited in round `i` of a search of `n` places that starts anywhere. */
  function Visit(start: nat, i: nat, n: nat): (t: nat)
    requires n > 0
    ensures t < n
  {
    (start + i) % n
  }

  /** A cyclic search visits every place. */
  lemma VisitsAll(start: nat, n: nat, t: nat) returns (j: nat)
    requires t < n
    ensures j < n && Visit(start, j, n) == t
  {
    var s := start % n;
    j := if t >= s then t - s else t + n - s;
    var q := start / n;
    assert start == q * n + s;
    if t >= s {
      assert start + j == q * n + t;
      ModUnique(start + j, n, q, t);
    } else {
      assert start + j == (q + 1) * n + t;
      ModUnique(start + j, n, q + 1, t);
    }
  }

  lemma ModUnique(a: int, n: int, q: int, r: int)
    requires 0 <= r < n && a == q * n + r
    ensures a % n == r
  {
    var d := a / n - q;
    assert a == (a / n) * n + a % n;
    assert d * n == r - a % n;
    AtLeastOne(d, n);
  }

  lemma AtLeastOne(d: int, n: int)
    requires n > 0
    ensures d >= 1 ==> d * n >= n
    ensures d <= -1 ==> d * n <= -n
  {
  }

  /** A set of numbers from an interval is no larger than the interval. */
  lemma Interval(a: nat, b: nat, s: set<nat>)
    requires forall x {:trigger x in s} :: x in s ==> a <= x < b
    ensures |s| <= if a <= b then b - a else 0
    decreases b
  {
    if a < b {
      var rest := s - {b - 1};
      Interval(a, b - 1, rest);
      assert s <= rest + {b - 1};
      assert |rest + {b - 1}| <= |rest| + 1;
      Subset(s, rest + {b - 1});
    } else {
      assert s == {};
    }
  }

  lemma Subset(s: set<nat>, s': set<nat>)
    requires s <= s'
    ensures |s| <= |s'|
  {
    assert s' == s + (s' - s);
  }
}
