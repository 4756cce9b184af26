/** What several modules share. */
module Basics {
  datatype Option<+T> = None | Some(value: T)

  type Id = string

  function Min(a: int, b: int): int {
    if a <= b then a else b
  }

  function Max(a: int, b: int): int {
    if a <= b then b else a
  }

  // The n integers from `first` on.
  function Interval(first: int, n: nat): (rs: set<int>)
    ensures |rs| == n && forall r :: r in rs <==> first <= r < first + n
  {
    if n == 0 then {} else Interval(first, n - 1) + {first + n - 1}
  }

  // The sum of a weight over a sequence.
  function Total<T>(weight: T -> int, s: seq<T>): int {
    if |s| == 0 then 0 else Total(weight, s[..|s| - 1]) + weight(s[|s| - 1])
  }

  function One<T>(): T -> int {
    _ => 1
  }

  lemma {:induction false} TotalOfOnes<T>(s: seq<T>)
    ensures Total(One(), s) == |s|
  {
    if |s| > 0 {
      TotalOfOnes(s[..|s| - 1]);
    }
  }

  lemma {:induction false} TotalHead<T>(weight: T -> int, s: seq<T>)
    requires |s| > 0
    ensures Total(weight, s) == weight(s[0]) + Total(weight, s[1..])
  {
    if |s| > 1 {
      TotalHead(weight, s[..|s| - 1]);
      assert s[1..][..|s| - 2] == s[..|s| - 1][1..];
    }
  }

  lemma {:induction false} TotalConcat<T>(weight: T -> int, a: seq<T>, b: seq<T>)
    ensures Total(weight, a + b) == Total(weight, a) + Total(weight, b)
    decreases |b|
  {
    if |b| == 0 {
      assert a + b == a;
    } else {
      assert (a + b)[..|a + b| - 1] == a + b[..|b| - 1];
      TotalConcat(weight, a, b[..|b| - 1]);
    }
  }

  lemma {:induction false} TotalAppend<T>(weight: T -> int, s: seq<T>, x: T)
    ensures Total(weight, s + [x]) == Total(weight, s) + weight(x)
  {
    assert (s + [x])[..|s|] == s;
  }

  lemma {:induction false} TotalUpdate<T>(weight: T -> int, s: seq<T>, i: nat, x: T)
    requires i < |s|
    ensures Total(weight, s[i := x]) == Total(weight, s) - weight(s[i]) + weight(x)
  {
    var init, more := s[..|s| - 1], s[i := x];
    if i == |s| - 1 {
      assert more[..|s| - 1] == init;
    } else {
      TotalUpdate(weight, init, i, x);
      assert more[..|s| - 1] == init[i := x];
    }
  }

  // How often x occurs.
  function Occurs<T(==)>(x: T): T -> int {
    y => if y == x then 1 else 0
  }

  lemma {:induction false} TotalIsCount<T>(s: seq<T>, x: T)
    ensures Total(Occurs(x), s) == multiset(s)[x]
  {
    if |s| > 0 {
      TotalIsCount(s[..|s| - 1], x);
      assert s == s[..|s| - 1] + [s[|s| - 1]];
    }
  }

  lemma {:induction false} SubsetSize<T>(a: set<T>, b: set<T>)
    requires a <= b
    ensures |a| <= |b| && (|a| == |b| ==> a == b)
  {
    assert b == a + (b - a);
  }

  // ----- sequences of distinct ids -----

  ghost predicate NoDup(ids: seq<Id>) {
    |ids| == 0 || (ids[|ids| - 1] !in ids[..|ids| - 1] && NoDup(ids[..|ids| - 1]))
  }

  function SetOf(ids: seq<Id>): set<Id> {
    set id | id in ids
  }

  ghost predicate Disjoint(a: seq<Id>, b: seq<Id>) {
    forall id :: id in a ==> id !in b
  }

  lemma {:induction false} NoDupConcat(a: seq<Id>, b: seq<Id>)
    ensures NoDup(a + b) <==> NoDup(a) && NoDup(b) && Disjoint(a, b)
    decreases |b|
  {
    if |b| == 0 {
      assert a + b == a;
    } else {
      var init, last := b[..|b| - 1], b[|b| - 1];
      assert (a + b)[..|a + b| - 1] == a + init;
      NoDupConcat(a, init);
      assert b == init + [last];
    }
  }

  lemma {:induction false} NoDupSize(ids: seq<Id>)
    requires NoDup(ids)
    ensures |SetOf(ids)| == |ids|
  {
    if |ids| > 0 {
      var init := ids[..|ids| - 1];
      NoDupSize(init);
      assert ids == init + [ids[|ids| - 1]];
      assert SetOf(ids) == SetOf(init) + {ids[|ids| - 1]};
    } else {
      assert SetOf(ids) == {};
    }
  }

  function Last<T>(s: seq<T>): T
    requires s != []
  {
    s[|s| - 1]
  }
}
