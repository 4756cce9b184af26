/**
  * The backlog timeline: a sorted two-pointer sweep over acknowledgement and
  * observation times, and the counts it stands for.
  */
module Sweep {
  import opened Basics

  type Time = int

  // ----- what each backlog point means -----

  // Of the ids in `some`, those acknowledged by time t.
  ghost function AckedBy(some: set<Id>, acked: map<Id, Time>, t: Time): set<Id> {
    set id | id in some && id in acked && acked[id] <= t
  }

  // Of the ids in `some`, those acknowledged by time t but not observed by then.
  ghost function PendingAt(some: set<Id>, acked: map<Id, Time>, observed: map<Id, Time>, t: Time): set<Id> {
    set id | id in some && id in acked && acked[id] <= t && !(id in observed && observed[id] <= t)
  }

  // ----- weights up to a time -----

  // The total weight of the elements whose key is at most t.
  function WeightUpTo<T>(key: T -> Time, weight: T -> int, t: Time, s: seq<T>): int
    decreases |s|, t
  {
    if |s| == 0 then 0
    else WeightUpTo(key, weight, t, s[..|s| - 1]) + if key(s[|s| - 1]) <= t then weight(s[|s| - 1]) else 0
  }

  ghost predicate SortedBy<T>(key: T -> Time, s: seq<T>) {
    forall i, j :: 0 <= i < j < |s| ==> key(s[i]) <= key(s[j])
  }

  lemma {:induction false} WeightConcat<T>(key: T -> Time, weight: T -> int, t: Time, a: seq<T>, b: seq<T>)
    ensures WeightUpTo(key, weight, t, a + b) == WeightUpTo(key, weight, t, a) + WeightUpTo(key, weight, t, b)
    decreases |b|
  {
    if |b| == 0 {
      assert a + b == a;
    } else {
      assert (a + b)[..|a + b| - 1] == a + b[..|b| - 1];
      WeightConcat(key, weight, t, a, b[..|b| - 1]);
    }
  }

  lemma {:induction false} WeightOne<T>(key: T -> Time, weight: T -> int, t: Time, x: T)
    ensures WeightUpTo(key, weight, t, [x]) == if key(x) <= t then weight(x) else 0
  {
    assert [x][..0] == [];
  }

  lemma {:induction false} MultisetInsert<T>(left: seq<T>, x: T, right: seq<T>)
    ensures multiset(left + ([x] + right)) == multiset(left + right) + multiset{x}
  {
    assert multiset(left + ([x] + right)) == multiset(left) + multiset([x] + right);
  }

  lemma {:induction false} WeightInsert<T>(key: T -> Time, weight: T -> int, t: Time, left: seq<T>, x: T, right: seq<T>)
    ensures WeightUpTo(key, weight, t, left + ([x] + right))
         == WeightUpTo(key, weight, t, left + right) + if key(x) <= t then weight(x) else 0
  {
    WeightConcat(key, weight, t, left, right);
    WeightConcat(key, weight, t, left, [x] + right);
    WeightConcat(key, weight, t, [x], right);
    WeightOne(key, weight, t, x);
  }

  lemma {:induction false} Cancel<T>(a: multiset<T>, b: multiset<T>, x: T)
    requires a + multiset{x} == b + multiset{x}
    ensures a == b
  {
    assert a == (a + multiset{x}) - multiset{x};
    assert b == (b + multiset{x}) - multiset{x};
  }

  // Take the last element of a out of its permutation b.
  lemma {:induction false} TakeOut<T>(a: seq<T>, b: seq<T>) returns (left: seq<T>, right: seq<T>)
    requires |a| > 0 && multiset(a) == multiset(b)
    ensures var x := a[|a| - 1];
            b == left + ([x] + right) && multiset(left + right) == multiset(a[..|a| - 1])
  {
    var x := a[|a| - 1];
    assert a == a[..|a| - 1] + [x];
    assert x in multiset(b);
    var i :| 0 <= i < |b| && b[i] == x;
    left, right := b[..i], b[i + 1..];
    assert b == left + ([x] + right);
    MultisetInsert(left, x, right);
    MultisetInsert(a[..|a| - 1], x, []);
    assert a[..|a| - 1] + ([x] + []) == a && a[..|a| - 1] + [] == a[..|a| - 1];
    Cancel(multiset(left + right), multiset(a[..|a| - 1]), x);
  }

  // Sorting does not change any weight.
  lemma {:induction false} WeightOfPermutation<T>(key: T -> Time, weight: T -> int, t: Time, a: seq<T>, b: seq<T>)
    requires multiset(a) == multiset(b)
    ensures WeightUpTo(key, weight, t, a) == WeightUpTo(key, weight, t, b)
    decreases |a|
  {
    if |a| == 0 {
      assert |multiset(b)| == 0;
    } else {
      var left, right := TakeOut(a, b);
      WeightOfPermutation(key, weight, t, a[..|a| - 1], left + right);
      WeightInsert(key, weight, t, left, a[|a| - 1], right);
    }
  }

  // In sorted order the elements up to t are a prefix.
  lemma {:induction false} WeightOfPrefix<T>(key: T -> Time, weight: T -> int, t: Time, s: seq<T>, k: nat)
    requires k <= |s|
    requires forall i :: 0 <= i < k ==> key(s[i]) <= t
    requires forall i :: k <= i < |s| ==> key(s[i]) > t
    ensures WeightUpTo(key, weight, t, s) == Total(weight, s[..k])
    decreases |s|
  {
    if |s| > 0 {
      var init := s[..|s| - 1];
      if k == |s| {
        WeightOfPrefix(key, weight, t, init, k - 1);
        assert s[..k] == s && init[..k - 1] == init;
      } else {
        WeightOfPrefix(key, weight, t, init, k);
        assert init[..k] == s[..k];
      }
    }
  }

  // ----- sorting -----

  lemma {:induction false} InsertKeepsSorted<T>(key: T -> Time, s: seq<T>, j: nat, x: T)
    requires SortedBy(key, s) && j <= |s|
    requires j > 0 ==> key(s[j - 1]) <= key(x)
    requires j < |s| ==> key(x) <= key(s[j])
    ensures SortedBy(key, s[..j] + ([x] + s[j..]))
  {
    var r := s[..j] + ([x] + s[j..]);
    forall a, b | 0 <= a < b < |r| ensures key(r[a]) <= key(r[b]) {
      var i, k := if a < j then a else a - 1, if b < j then b else b - 1;
      if a == j {
        assert r[a] == x && r[b] == s[k] && (k == j || key(s[j]) <= key(s[k]));
      } else if b == j {
        assert r[b] == x && r[a] == s[i] && (i == j - 1 || key(s[i]) <= key(s[j - 1]));
      } else {
        assert r[a] == s[i] && r[b] == s[k];
      }
    }
  }

  method Sort<T(==)>(key: T -> Time, s: seq<T>) returns (out: seq<T>)
    ensures SortedBy(key, out) && multiset(out) == multiset(s)
  {
    out := [];
    var i := 0;
    while i < |s|
      invariant 0 <= i <= |s|
      invariant SortedBy(key, out) && multiset(out) == multiset(s[..i])
    {
      out := Insert(key, out, s[i]);
      assert s[..i + 1] == s[..i] + [s[i]];
      i := i + 1;
    }
    assert s[..i] == s;
  }

  method Insert<T(==)>(key: T -> Time, s: seq<T>, x: T) returns (out: seq<T>)
    requires SortedBy(key, s)
    ensures SortedBy(key, out) && multiset(out) == multiset(s) + multiset{x}
  {
    var j := |s|;
    while j > 0 && key(s[j - 1]) > key(x)
      invariant 0 <= j <= |s|
      invariant j < |s| ==> key(s[j]) > key(x)
    {
      j := j - 1;
    }
    InsertKeepsSorted(key, s, j, x);
    MultisetInsert(s[..j], x, s[j..]);
    assert s[..j] + s[j..] == s;
    out := s[..j] + ([x] + s[j..]);
  }

  // ----- the sweep -----

  datatype Change = Change(at: Time, delta: int)

  datatype Point = Point(elapsed: Time, accepted: int, pending: int)

  function TimeKey(): Time -> Time {
    t => t
  }

  function ChangeKey(): Change -> Time {
    (c: Change) => c.at
  }

  function Delta(): Change -> int {
    (c: Change) => c.delta
  }

  // One more id in the count of acknowledged ids.
  lemma {:induction false} AckedAdd(some: set<Id>, acked: map<Id, Time>, id: Id, t: Time)
    requires id !in some && id in acked
    ensures |AckedBy(some + {id}, acked, t)| == |AckedBy(some, acked, t)| + if acked[id] <= t then 1 else 0
  {
    if acked[id] <= t {
      assert AckedBy(some + {id}, acked, t) == AckedBy(some, acked, t) + {id};
    } else {
      assert AckedBy(some + {id}, acked, t) == AckedBy(some, acked, t);
    }
  }

  // The changes that an acknowledged id adds to the timeline: none when it was
  // already observed at its acknowledgement.
  function ChangesOf(at: Time, observed: map<Id, Time>, id: Id): seq<Change> {
    if id !in observed then [Change(at, 1)]
    else if observed[id] > at then [Change(at, 1), Change(observed[id], -1)]
    else []
  }

  lemma {:induction false} ChangesWeight(at: Time, observed: map<Id, Time>, id: Id, t: Time)
    ensures WeightUpTo(ChangeKey(), Delta(), t, ChangesOf(at, observed, id))
         == if at <= t && !(id in observed && observed[id] <= t) then 1 else 0
  {
    var cs := ChangesOf(at, observed, id);
    if |cs| > 0 {
      WeightOne(ChangeKey(), Delta(), t, cs[0]);
    }
    if |cs| == 2 {
      assert cs == [cs[0]] + [cs[1]];
      WeightOne(ChangeKey(), Delta(), t, cs[1]);
      WeightConcat(ChangeKey(), Delta(), t, [cs[0]], [cs[1]]);
    }
  }

  lemma {:induction false} PendingAdd(some: set<Id>, acked: map<Id, Time>, observed: map<Id, Time>, id: Id, t: Time)
    requires id !in some && id in acked
    ensures |PendingAt(some + {id}, acked, observed, t)|
         == |PendingAt(some, acked, observed, t)| + WeightUpTo(ChangeKey(), Delta(), t, ChangesOf(acked[id], observed, id))
  {
    ChangesWeight(acked[id], observed, id, t);
    var before, after := PendingAt(some, acked, observed, t), PendingAt(some + {id}, acked, observed, t);
    if acked[id] <= t && !(id in observed && observed[id] <= t) {
      assert after == before + {id};
    } else {
      assert after == before;
    }
  }

  // The finish times stand for the acknowledged ids of `some`.
  ghost predicate CountsAcked(finishes: seq<Time>, some: set<Id>, acked: map<Id, Time>) {
    forall t :: WeightUpTo(TimeKey(), One<Time>(), t, finishes) == |AckedBy(some, acked, t)|
  }

  // The changes stand for the pending ids of `some`.
  ghost predicate CountsPending(changes: seq<Change>, some: set<Id>, acked: map<Id, Time>, observed: map<Id, Time>) {
    forall t :: WeightUpTo(ChangeKey(), Delta(), t, changes) == |PendingAt(some, acked, observed, t)|
  }

  lemma {:induction false} CountsNothing(acked: map<Id, Time>, observed: map<Id, Time>)
    ensures CountsAcked([], {}, acked) && CountsPending([], {}, acked, observed)
  {
    forall t ensures AckedBy({}, acked, t) == {} && PendingAt({}, acked, observed, t) == {} {}
  }

  lemma {:induction false} CountsAckedAdd(finishes: seq<Time>, some: set<Id>, acked: map<Id, Time>, id: Id)
    requires CountsAcked(finishes, some, acked) && id !in some && id in acked
    ensures CountsAcked(finishes + [acked[id]], some + {id}, acked)
  {
    var more := finishes + [acked[id]];
    forall t ensures WeightUpTo(TimeKey(), One<Time>(), t, more) == |AckedBy(some + {id}, acked, t)| {
      AckedAdd(some, acked, id, t);
      WeightOne(TimeKey(), One<Time>(), t, acked[id]);
      WeightConcat(TimeKey(), One<Time>(), t, finishes, [acked[id]]);
    }
  }

  lemma {:induction false} CountsPendingAdd(changes: seq<Change>, some: set<Id>, acked: map<Id, Time>, observed: map<Id, Time>, id: Id)
    requires CountsPending(changes, some, acked, observed) && id !in some && id in acked
    ensures CountsPending(changes + ChangesOf(acked[id], observed, id), some + {id}, acked, observed)
  {
    var more := changes + ChangesOf(acked[id], observed, id);
    forall t ensures WeightUpTo(ChangeKey(), Delta(), t, more) == |PendingAt(some + {id}, acked, observed, t)| {
      PendingAdd(some, acked, observed, id, t);
      WeightConcat(ChangeKey(), Delta(), t, changes, ChangesOf(acked[id], observed, id));
    }
  }

  // The timeline's raw material, from maps visited in any order.
  method Collect(acked: map<Id, Time>, observed: map<Id, Time>) returns (finishes: seq<Time>, changes: seq<Change>)
    ensures CountsAcked(finishes, acked.Keys, acked)
    ensures CountsPending(changes, acked.Keys, acked, observed)
  {
    finishes, changes := [], [];
    var todo := acked.Keys;
    ghost var done: set<Id> := {};
    CountsNothing(acked, observed);
    while todo != {}
      invariant done + todo == acked.Keys && done !! todo
      invariant CountsAcked(finishes, done, acked)
      invariant CountsPending(changes, done, acked, observed)
      decreases todo
    {
      var id :| id in todo;
      var at := acked[id];
      CountsAckedAdd(finishes, done, acked, id);
      CountsPendingAdd(changes, done, acked, observed, id);
      finishes := finishes + [at];
      changes := changes + ChangesOf(at, observed, id);
      todo, done := todo - {id}, done + {id};
    }
    assert done == acked.Keys;
  }

  // Move an index past everything up to t; the index only ever moves forward.
  method AdvanceFinishes(finishes: seq<Time>, from: nat, t: Time) returns (fi: nat)
    requires SortedBy(TimeKey(), finishes) && from <= |finishes|
    requires forall i :: 0 <= i < from ==> finishes[i] <= t
    ensures from <= fi <= |finishes|
    ensures forall i :: 0 <= i < fi ==> finishes[i] <= t
    ensures fi == WeightUpTo(TimeKey(), One<Time>(), t, finishes)
  {
    fi := from;
    while fi < |finishes| && finishes[fi] <= t
      invariant from <= fi <= |finishes|
      invariant forall i :: 0 <= i < fi ==> finishes[i] <= t
    {
      fi := fi + 1;
    }
    forall i | fi <= i < |finishes| ensures TimeKey()(finishes[i]) > t {
      assert fi < i ==> TimeKey()(finishes[fi]) <= TimeKey()(finishes[i]);
    }
    WeightOfPrefix(TimeKey(), One<Time>(), t, finishes, fi);
    TotalOfOnes(finishes[..fi]);
  }

  method AdvanceChanges(changes: seq<Change>, from: nat, pending: int, t: Time) returns (ci: nat, count: int)
    requires SortedBy(ChangeKey(), changes) && from <= |changes|
    requires forall i :: 0 <= i < from ==> changes[i].at <= t
    requires pending == Total(Delta(), changes[..from])
    ensures from <= ci <= |changes|
    ensures forall i :: 0 <= i < ci ==> changes[i].at <= t
    ensures count == Total(Delta(), changes[..ci]) == WeightUpTo(ChangeKey(), Delta(), t, changes)
  {
    ci, count := from, pending;
    while ci < |changes| && changes[ci].at <= t
      invariant from <= ci <= |changes|
      invariant forall i :: 0 <= i < ci ==> changes[i].at <= t
      invariant count == Total(Delta(), changes[..ci])
    {
      assert changes[..ci + 1][..ci] == changes[..ci];
      count := count + changes[ci].delta;
      ci := ci + 1;
    }
    forall i | ci <= i < |changes| ensures ChangeKey()(changes[i]) > t {
      assert ci < i ==> ChangeKey()(changes[ci]) <= ChangeKey()(changes[i]);
    }
    WeightOfPrefix(ChangeKey(), Delta(), t, changes, ci);
  }

  // The whole reconstruction: at every backlog point, exactly the ids
  // acknowledged by then and those of them not observed by then, whatever the
  // order in which maps and equal times are visited.
  method Timeline(acked: map<Id, Time>, observed: map<Id, Time>, points: seq<Time>) returns (backlog: seq<Point>)
    requires SortedBy(TimeKey(), points)
    ensures |backlog| == |points|
    ensures forall i :: 0 <= i < |points| ==>
              backlog[i] == Point(points[i], |AckedBy(acked.Keys, acked, points[i])|, |PendingAt(acked.Keys, acked, observed, points[i])|)
  {
    var rawFinishes, rawChanges := Collect(acked, observed);
    var finishes := Sort(TimeKey(), rawFinishes);
    var changes := Sort(ChangeKey(), rawChanges);
    backlog := [];
    var fi, ci, pending := 0, 0, 0;
    var i := 0;
    while i < |points|
      invariant 0 <= i <= |points| && |backlog| == i
      invariant fi <= |finishes| && ci <= |changes| && pending == Total(Delta(), changes[..ci])
      invariant i < |points| ==> forall j :: 0 <= j < fi ==> finishes[j] <= points[i]
      invariant i < |points| ==> forall j :: 0 <= j < ci ==> changes[j].at <= points[i]
      invariant forall j :: 0 <= j < i ==>
                  backlog[j] == Point(points[j], |AckedBy(acked.Keys, acked, points[j])|, |PendingAt(acked.Keys, acked, observed, points[j])|)
    {
      var at := points[i];
      fi := AdvanceFinishes(finishes, fi, at);
      ci, pending := AdvanceChanges(changes, ci, pending, at);
      WeightOfPermutation(TimeKey(), One<Time>(), at, finishes, rawFinishes);
      WeightOfPermutation(ChangeKey(), Delta(), at, changes, rawChanges);
      backlog := backlog + [Point(at, fi, pending)];
      i := i + 1;
      if i < |points| {
        assert TimeKey()(points[i - 1]) <= TimeKey()(points[i]);
      }
    }
  }

  // The count at the end of the window uses the same definition.
  method BacklogAt(acked: map<Id, Time>, observed: map<Id, Time>, end: Time) returns (n: nat)
    ensures n == |PendingAt(acked.Keys, acked, observed, end)|
  {
    n := 0;
    var todo := acked.Keys;
    ghost var done: set<Id> := {};
    while todo != {}
      invariant done + todo == acked.Keys && done !! todo
      invariant n == |PendingAt(done, acked, observed, end)|
      decreases todo
    {
      var id :| id in todo;
      PendingAdd(done, acked, observed, id, end);
      ChangesWeight(acked[id], observed, id, end);
      if acked[id] <= end && (id !in observed || observed[id] > end) {
        n := n + 1;
      }
      todo, done := todo - {id}, done + {id};
    }
    assert done == acked.Keys;
  }
}
