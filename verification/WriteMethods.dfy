/**
  * The database benchmark: single inserts, batch inserts and stage-and-merge
  * over the same generated workload leave the same table and report the same
  * counts.
  */
module WriteMethods {
  import opened Basics
  import opened EventTable

  // Repeated submissions of a key repeat the original.
  ghost predicate Consistent(es: seq<Envelope>) {
    forall a, b :: a in es && b in es && KeyOf(a) == KeyOf(b) ==> a == b
  }

  ghost predicate SameMembers(es: seq<Envelope>, fs: seq<Envelope>) {
    forall e :: e in es <==> e in fs
  }

  // A merge may read its staged rows in any order: when duplicates repeat the
  // original, the outcome is the same.
  lemma {:induction false} OrderDoesNotMatter(t: Table, es: seq<Envelope>, fs: seq<Envelope>)
    requires Consistent(es) && SameMembers(es, fs)
    ensures InsertAll(t, es) == InsertAll(t, fs)
  {
    forall k ensures Lookup(InsertAll(t, es), k) == Lookup(InsertAll(t, fs), k) {
      InsertAllIsFirstWins(t, es, k);
      InsertAllIsFirstWins(t, fs, k);
      FirstFound(es, k);
      FirstFound(fs, k);
    }
    SameLookups(InsertAll(t, es), InsertAll(t, fs));
  }

  // ----- the expected content -----

  // First submission of each event id.
  function Expected(es: seq<Envelope>): map<EventId, Envelope> {
    if |es| == 0 then map[]
    else
      var m, e := Expected(es[..|es| - 1]), es[|es| - 1];
      if e.input.eventId in m then m else m[e.input.eventId := e]
  }

  ghost predicate OfTenant(es: seq<Envelope>, tenant: string) {
    forall i :: 0 <= i < |es| ==> es[i].tenant == tenant
  }

  function WithoutTenant(t: Table, tenant: string): Table {
    map k | k in t && k.tenant != tenant :: t[k]
  }

  // The tenant's rows are exactly the expected events.
  ghost predicate HoldsExpected(t: Table, tenant: string, want: map<EventId, Envelope>) {
    forall id :: (Key(tenant, id) in t <==> id in want) && (id in want ==> t[Key(tenant, id)] == want[id])
  }

  lemma {:induction false} InsertedIsExpected(t: Table, es: seq<Envelope>, tenant: string)
    requires OfTenant(es, tenant) && forall k :: k in t ==> k.tenant != tenant
    ensures HoldsExpected(InsertAll(t, es), tenant, Expected(es))
    ensures |InsertAll(t, es)| == |t| + |Expected(es)|
  {
    if |es| > 0 {
      InsertedIsExpected(t, es[..|es| - 1], tenant);
    }
  }

  method ExpectedEvents(es: seq<Envelope>) returns (m: map<EventId, Envelope>)
    ensures m == Expected(es)
  {
    m := map[];
    var i := 0;
    while i < |es|
      invariant 0 <= i <= |es|
      invariant m == Expected(es[..i])
    {
      assert es[..i + 1][..i] == es[..i];
      if es[i].input.eventId !in m {
        m := m[es[i].input.eventId := es[i]];
      }
      i := i + 1;
    }
    assert es[..i] == es;
  }

  lemma {:induction false} ConsistentPart(es: seq<Envelope>, i: nat, j: nat)
    requires Consistent(es) && i <= j <= |es|
    ensures Consistent(es[i..j])
  {
    forall e | e in es[i..j] ensures e in es {
      var k :| i <= k < j && es[k] == e;
    }
  }

  lemma {:induction false} InsertAllParts(t: Table, es: seq<Envelope>, i: nat, j: nat)
    requires i <= j <= |es|
    ensures InsertAll(t, es[..j]) == InsertAll(InsertAll(t, es[..i]), es[i..j])
  {
    assert es[..j] == es[..i] + es[i..j];
    InsertAllConcat(t, es[..i], es[i..j]);
  }

  // ----- the three methods -----

  datatype Method = SingleInsert | BatchInsert | CopyMerge | UnknownMethod

  class Database {
    var table: Table
    // How many calls the server has failed so far.
    var refused: nat

    constructor ()
      ensures table == map[] && refused == 0
    {
      table := map[];
      refused := 0;
    }

    // INSERT ... VALUES ... ON CONFLICT DO NOTHING. A statement without rows
    // is a syntax error; a failed one may have been applied all the same.
    method Insert(rows: seq<Envelope>) returns (affected: nat, ok: bool)
      modifies this
      ensures ok ==> table == InsertAll(old(table), rows) && affected == |table| - |old(table)|
      ensures !ok ==> affected == 0 && (table == old(table) || table == InsertAll(old(table), rows))
      ensures refused >= old(refused) && (ok <==> |rows| > 0 && refused == old(refused))
    {
      affected, ok := 0, false;
      if |rows| == 0 {
        return;
      }
      var failed: bool := *;
      if failed {
        refused := refused + 1;
        var applied: bool := *;
        table := if applied then InsertAll(table, rows) else table;
        return;
      }
      InsertAllSize(table, rows);
      affected, ok := |InsertAll(table, rows)| - |table|, true;
      table := InsertAll(table, rows);
    }

    // Stage the rows in a temporary table, then merge them in whatever order
    // the scan returns them.
    method Merge(rows: seq<Envelope>) returns (affected: nat, ok: bool)
      requires Consistent(rows)
      modifies this
      ensures ok ==> table == InsertAll(old(table), rows) && affected == |table| - |old(table)|
      ensures !ok ==> affected == 0 && (table == old(table) || table == InsertAll(old(table), rows))
      ensures refused >= old(refused) && (ok <==> refused == old(refused))
    {
      affected, ok := 0, true;
      if |rows| == 0 {
        return;
      }
      assert multiset(rows) == multiset(rows);
      var scan: seq<Envelope> :| multiset(scan) == multiset(rows);
      assert forall e :: e in rows <==> e in multiset(rows);
      assert forall e :: e in scan <==> e in multiset(scan);
      OrderDoesNotMatter(table, rows, scan);
      InsertAllSize(table, rows);
      var failed: bool := *;
      if failed {
        refused := refused + 1;
        var applied: bool := *;
        table := if applied then InsertAll(table, scan) else table;
        return 0, false;
      }
      affected := |InsertAll(table, scan)| - |table|;
      table := InsertAll(table, scan);
    }

    method WriteMethod(m: Method, es: seq<Envelope>) returns (n: nat, ok: bool)
      requires Consistent(es)
      modifies this
      ensures ok ==> table == InsertAll(old(table), es) && n == |table| - |old(table)|
      ensures m.UnknownMethod? ==> !ok && table == old(table)
      ensures refused >= old(refused)
      ensures ok <==> refused == old(refused) && !m.UnknownMethod? && (m.BatchInsert? ==> |es| > 0)
    {
      n, ok := 0, false;
      if m.CopyMerge? {
        n, ok := Merge(es);
      } else if m.SingleInsert? {
        var i := 0;
        while i < |es|
          invariant 0 <= i <= |es| && refused == old(refused)
          invariant table == InsertAll(old(table), es[..i]) && n == |table| - |old(table)|
        {
          var w;
          w, ok := Insert([es[i]]);
          if !ok {
            return;
          }
          assert es[..i + 1] == es[..i] + [es[i]];
          InsertAllConcat(old(table), es[..i], [es[i]]);
          n := n + w;
          i := i + 1;
        }
        assert es[..i] == es;
        ok := true;
      } else if m.BatchInsert? {
        n, ok := Insert(es);
      }
    }

    // One measured run: reset, write everything in batches, count.
    method MeasuredRun(m: Method, es: seq<Envelope>, batchSize: nat, tenant: string)
      returns (inserted: nat, duplicates: int, correct: bool, ok: bool)
      requires batchSize > 0 && OfTenant(es, tenant) && Consistent(es)
      modifies this
      ensures ok ==> table == InsertAll(WithoutTenant(old(table), tenant), es)
      ensures ok ==> HoldsExpected(table, tenant, Expected(es))
      ensures ok ==> inserted == |Expected(es)| && inserted + duplicates == |es| && correct
      ensures refused >= old(refused) && (ok <==> refused == old(refused) && (m.UnknownMethod? ==> |es| == 0))
    {
      inserted, duplicates, correct, ok := 0, 0, false, true;
      table := WithoutTenant(table, tenant);
      ghost var empty := table;
      var size := if m.SingleInsert? then 1 else batchSize;
      var start := 0;
      while start < |es|
        invariant 0 <= start <= |es| && ok && refused == old(refused) && (m.UnknownMethod? ==> start == 0)
        invariant table == InsertAll(empty, es[..start]) && inserted == |table| - |empty|
        decreases |es| - start
      {
        var end := if start + size < |es| then start + size else |es|;
        ConsistentPart(es, start, end);
        var w;
        w, ok := WriteMethod(m, es[start..end]);
        if !ok {
          return;
        }
        InsertAllParts(empty, es, start, end);
        inserted := inserted + w;
        start := end;
      }
      assert es[..start] == es;
      InsertedIsExpected(empty, es, tenant);
      var want := ExpectedEvents(es);
      duplicates := |es| - inserted;
      correct := inserted == |want|;
    }
  }

  // ----- the workload -----

  // `make` builds the i-th distinct event; event ids are collision-free.
  ghost predicate DistinctIds(make: nat -> Envelope) {
    forall i, j :: make(i).input.eventId == make(j).input.eventId ==> i == j
  }

  // Which distinct event submission i carries.
  function Source(i: nat, unique: nat): nat
    requires unique >= 1
  {
    if i < unique then i else (i - unique) % unique
  }

  lemma {:induction false} RepeatedBelowCount(count: nat, fraction: real)
    requires count > 0 && 0.0 <= fraction < 1.0
    ensures 0 <= (count as real * fraction).Floor < count
  {
    assert 0.0 <= count as real * fraction < count as real;
  }

  // `count` submissions: distinct events first, then repeats of them in turn.
  method Workload(make: nat -> Envelope, count: nat, duplicateFraction: real) returns (out: seq<Envelope>, unique: nat)
    requires count > 0 && 0.0 <= duplicateFraction < 1.0
    ensures |out| == count && 1 <= unique <= count
    ensures unique == count - (count as real * duplicateFraction).Floor
    ensures forall i :: 0 <= i < count ==> out[i] == make(Source(i, unique))
  {
    RepeatedBelowCount(count, duplicateFraction);
    unique := count - (count as real * duplicateFraction).Floor;
    out := Submissions(make, count, unique);
  }

  method Submissions(make: nat -> Envelope, count: nat, unique: nat) returns (out: seq<Envelope>)
    requires 1 <= unique <= count
    ensures |out| == count && forall i :: 0 <= i < count ==> out[i] == make(Source(i, unique))
  {
    out := [];
    var i := 0;
    while i < unique
      invariant 0 <= i <= unique && |out| == i
      invariant forall j :: 0 <= j < i ==> out[j] == make(j)
    {
      out := out + [make(i)];
      i := i + 1;
    }
    while i < count
      invariant unique <= i <= count && |out| == i
      invariant forall j :: 0 <= j < i ==> out[j] == make(Source(j, unique))
    {
      var k := (i - unique) % unique;
      assert Source(k, unique) == k;
      out := out + [out[k]];
      i := i + 1;
    }
  }

  ghost predicate IsWorkload(make: nat -> Envelope, out: seq<Envelope>, unique: nat) {
    unique >= 1 && forall i :: 0 <= i < |out| ==> out[i] == make(Source(i, unique))
  }

  // Such a workload is consistent, and exactly its distinct events are expected.
  lemma {:induction false} WorkloadIsConsistent(make: nat -> Envelope, out: seq<Envelope>, unique: nat)
    requires DistinctIds(make) && IsWorkload(make, out, unique)
    ensures Consistent(out)
  {
    forall a, b | a in out && b in out && KeyOf(a) == KeyOf(b) ensures a == b {
      var i :| 0 <= i < |out| && out[i] == a;
      var j :| 0 <= j < |out| && out[j] == b;
      assert make(Source(i, unique)).input.eventId == make(Source(j, unique)).input.eventId;
    }
  }

  ghost function IdsUpTo(make: nat -> Envelope, n: nat): set<EventId> {
    if n == 0 then {} else IdsUpTo(make, n - 1) + {make(n - 1).input.eventId}
  }

  lemma {:induction false} IdsAreDistinct(make: nat -> Envelope, n: nat, k: nat)
    requires DistinctIds(make)
    ensures |IdsUpTo(make, n)| == n
    ensures make(k).input.eventId in IdsUpTo(make, n) <==> k < n
  {
    if n > 0 {
      IdsAreDistinct(make, n - 1, n - 1);
      IdsAreDistinct(make, n - 1, k);
    }
  }

  // Submission n brings a new id exactly while the distinct events last.
  lemma {:induction false} WorkloadStep(make: nat -> Envelope, n: nat, unique: nat)
    requires DistinctIds(make) && unique >= 1
    ensures IdsUpTo(make, Min(n + 1, unique)) == IdsUpTo(make, Min(n, unique)) + {make(Source(n, unique)).input.eventId}
  {
    IdsAreDistinct(make, Min(n, unique), Source(n, unique));
  }

  lemma {:induction false} WorkloadExpects(make: nat -> Envelope, out: seq<Envelope>, unique: nat)
    requires DistinctIds(make) && IsWorkload(make, out, unique)
    ensures Expected(out).Keys == IdsUpTo(make, Min(|out|, unique))
    ensures |Expected(out)| == Min(|out|, unique)
    decreases |out|
  {
    if |out| > 0 {
      var n := |out| - 1;
      WorkloadExpects(make, out[..n], unique);
      assert out[n] == make(Source(n, unique));
      WorkloadStep(make, n, unique);
    }
    IdsAreDistinct(make, Min(|out|, unique), 0);
    assert |Expected(out)| == |Expected(out).Keys|;
  }

  lemma {:induction false} ExpectedMember(es: seq<Envelope>, id: EventId)
    requires id in Expected(es)
    ensures exists j :: 0 <= j < |es| && es[j] == Expected(es)[id] && es[j].input.eventId == id
  {
    if |es| > 0 && id in Expected(es[..|es| - 1]) {
      ExpectedMember(es[..|es| - 1], id);
      var j :| 0 <= j < |es| - 1 && es[..|es| - 1][j] == Expected(es)[id] && es[..|es| - 1][j].input.eventId == id;
      assert es[j] == es[..|es| - 1][j];
    }
  }

  // Each distinct event is expected with its own content.
  lemma {:induction false} WorkloadContents(make: nat -> Envelope, out: seq<Envelope>, unique: nat, i: nat)
    requires DistinctIds(make) && IsWorkload(make, out, unique) && i < unique <= |out|
    ensures make(i).input.eventId in Expected(out) && Expected(out)[make(i).input.eventId] == make(i)
  {
    var id := make(i).input.eventId;
    WorkloadExpects(make, out, unique);
    IdsAreDistinct(make, unique, i);
    ExpectedMember(out, id);
    var j :| 0 <= j < |out| && out[j] == Expected(out)[id] && out[j].input.eventId == id;
    assert make(Source(j, unique)).input.eventId == id;
  }

  // One measured run of a generated workload: whatever the write method, the
  // distinct events are inserted and the repeats are counted as duplicates.
  method MeasureWorkload(db: Database, m: Method, make: nat -> Envelope, count: nat, duplicateFraction: real,
                         batchSize: nat, tenant: string)
    returns (inserted: nat, duplicates: int, correct: bool, ok: bool)
    requires count > 0 && 0.0 <= duplicateFraction < 1.0 && batchSize > 0
    requires DistinctIds(make) && forall i :: make(i).tenant == tenant
    modifies db
    ensures ok ==> correct && duplicates == (count as real * duplicateFraction).Floor && inserted == count - duplicates
    ensures ok ==> forall i: nat :: i < inserted ==> KeyOf(make(i)) in db.table && db.table[KeyOf(make(i))] == make(i)
    ensures ok <==> db.refused == old(db.refused) && !m.UnknownMethod?
  {
    var out, unique := Workload(make, count, duplicateFraction);
    WorkloadIsConsistent(make, out, unique);
    WorkloadExpects(make, out, unique);
    inserted, duplicates, correct, ok := db.MeasuredRun(m, out, batchSize, tenant);
    if ok {
      assert HoldsExpected(db.table, tenant, Expected(out));
      forall i: nat | i < unique ensures KeyOf(make(i)) in db.table && db.table[KeyOf(make(i))] == make(i) {
        WorkloadContents(make, out, unique, i);
      }
    }
  }
}
