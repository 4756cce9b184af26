/** The events table: one row for each (tenant, event id), and the first writer wins. */
module EventTable {
  import opened Basics

  type EventId = string

  // What a caller sends, and what the API adds to it.
  datatype Input = Input(eventId: EventId, eventType: string, occurredAt: int, payload: string)
  datatype Envelope = Envelope(input: Input, tenant: string, receivedAt: int)

  function IdsOf(inputs: seq<Input>): (ids: seq<EventId>)
    ensures |ids| == |inputs| && forall i :: 0 <= i < |ids| ==> ids[i] == inputs[i].eventId
  {
    seq(|inputs|, i requires 0 <= i < |inputs| => inputs[i].eventId)
  }

  // The primary key of the table.
  datatype Key = Key(tenant: string, eventId: EventId)

  type Table = map<Key, Envelope>

  function KeyOf(e: Envelope): Key {
    Key(e.tenant, e.input.eventId)
  }

  // INSERT ... ON CONFLICT DO NOTHING, one row.
  function Insert(t: Table, e: Envelope): Table {
    if KeyOf(e) in t then t else t[KeyOf(e) := e]
  }

  // The same statement with several rows, tried in order.
  function InsertAll(t: Table, es: seq<Envelope>): Table {
    if |es| == 0 then t else Insert(InsertAll(t, es[..|es| - 1]), es[|es| - 1])
  }

  function Lookup(t: Table, k: Key): Option<Envelope> {
    if k in t then Some(t[k]) else None
  }

  // The first event with key k, reading from the left.
  function First(es: seq<Envelope>, k: Key): Option<Envelope> {
    if |es| == 0 then None
    else if KeyOf(es[0]) == k then Some(es[0])
    else First(es[1..], k)
  }

  function OrElse<T>(a: Option<T>, b: Option<T>): Option<T> {
    if a.Some? then a else b
  }

  lemma {:induction false} FirstOfConcat(a: seq<Envelope>, b: seq<Envelope>, k: Key)
    ensures First(a + b, k) == OrElse(First(a, k), First(b, k))
  {
    if |a| == 0 {
      assert a + b == b;
    } else {
      assert (a + b)[1..] == a[1..] + b;
      FirstOfConcat(a[1..], b, k);
    }
  }

  lemma {:induction false} FirstFound(es: seq<Envelope>, k: Key)
    ensures First(es, k).None? <==> forall e :: e in es ==> KeyOf(e) != k
    ensures First(es, k).Some? ==> First(es, k).value in es && KeyOf(First(es, k).value) == k
  {
    if |es| > 0 {
      FirstFound(es[1..], k);
      assert es == [es[0]] + es[1..];
    }
  }

  // What the table holds after a statement, key by key: rows already present
  // keep their content, and a new key gets the first event carrying it.
  lemma {:induction false} InsertAllIsFirstWins(t: Table, es: seq<Envelope>, k: Key)
    ensures Lookup(InsertAll(t, es), k) == OrElse(Lookup(t, k), First(es, k))
  {
    if |es| > 0 {
      var init, last := es[..|es| - 1], es[|es| - 1];
      InsertAllIsFirstWins(t, init, k);
      assert es == init + [last];
      FirstOfConcat(init, [last], k);
      assert First([last], k) == if KeyOf(last) == k then Some(last) else None;
    }
  }

  lemma {:induction false} SameLookups(s: Table, t: Table)
    requires forall k :: Lookup(s, k) == Lookup(t, k)
    ensures s == t
  {
    forall k ensures k in s <==> k in t {
      assert Lookup(s, k) == Lookup(t, k);
    }
    forall k | k in s ensures s[k] == t[k] {
      assert Lookup(s, k) == Lookup(t, k);
    }
  }

  lemma {:induction false} InsertAllConcat(t: Table, a: seq<Envelope>, b: seq<Envelope>)
    ensures InsertAll(t, a + b) == InsertAll(InsertAll(t, a), b)
  {
    forall k ensures Lookup(InsertAll(t, a + b), k) == Lookup(InsertAll(InsertAll(t, a), b), k) {
      InsertAllIsFirstWins(t, a + b, k);
      InsertAllIsFirstWins(t, a, k);
      InsertAllIsFirstWins(InsertAll(t, a), b, k);
      FirstOfConcat(a, b, k);
    }
    SameLookups(InsertAll(t, a + b), InsertAll(InsertAll(t, a), b));
  }

  // A row, once present, is never changed by a later statement.
  ghost predicate Extends(later: Table, earlier: Table) {
    forall k :: k in earlier ==> k in later && later[k] == earlier[k]
  }

  lemma {:induction false} InsertAllExtends(t: Table, es: seq<Envelope>)
    ensures Extends(InsertAll(t, es), t)
  {
    forall k | k in t ensures k in InsertAll(t, es) && InsertAll(t, es)[k] == t[k] {
      InsertAllIsFirstWins(t, es, k);
    }
  }

  lemma {:induction false} InsertAllSize(t: Table, es: seq<Envelope>)
    ensures |t| <= |InsertAll(t, es)| <= |t| + |es|
  {
    if |es| > 0 {
      InsertAllSize(t, es[..|es| - 1]);
    }
  }

  // ----- the deployed writer -----

  datatype WriteResult = WriteResult(inserted: nat, duplicates: nat)

  // What the database did with a statement and what the client was told.
  datatype Outcome = Applied | AppliedButReportedFailed | NotApplied

  class EventStore {
    var table: Table

    constructor ()
      ensures table == map[]
    {
      table := map[];
    }

    // One INSERT statement: all rows in order, then one atomic commit whose
    // acknowledgement may be lost.
    method Exec(rows: seq<Envelope>) returns (affected: nat, outcome: Outcome)
      modifies this
      ensures outcome.NotApplied? ==> table == old(table)
      ensures !outcome.NotApplied? ==> table == InsertAll(old(table), rows)
      ensures affected == |InsertAll(old(table), rows)| - |old(table)|
    {
      var next, i := table, 0;
      affected := 0;
      while i < |rows|
        invariant 0 <= i <= |rows|
        invariant next == InsertAll(table, rows[..i])
        invariant affected == |next| - |table|
      {
        assert rows[..i + 1][..i] == rows[..i];
        if KeyOf(rows[i]) !in next {
          next := next[KeyOf(rows[i]) := rows[i]];
          affected := affected + 1;
        }
        i := i + 1;
      }
      assert rows[..i] == rows;
      outcome := *;
      if !outcome.NotApplied? {
        table := next;
      }
    }

    // None is the error return. Nothing in between the old and the new table
    // is ever visible, and a reported failure may still have been applied.
    method WriteBatch(events: seq<Envelope>) returns (r: Option<WriteResult>)
      modifies this
      ensures table == old(table) || table == InsertAll(old(table), events)
      ensures r.Some? ==> table == InsertAll(old(table), events)
      ensures r.Some? ==> r.value.inserted == |table| - |old(table)|
      ensures r.Some? ==> r.value.inserted + r.value.duplicates == |events|
      ensures events == [] ==> r.Some?
    {
      if |events| == 0 {
        return Some(WriteResult(0, 0));
      }
      var affected, outcome := Exec(events);
      InsertAllSize(old(table), events);
      if outcome.Applied? {
        r := Some(WriteResult(affected, |events| - affected));
      } else {
        r := None;
      }
    }
  }
}
