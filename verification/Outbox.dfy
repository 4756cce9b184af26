/**
  * The transactional outbox: an order and its event are saved in one
  * transaction, and a dispatcher delivers pending events until they are
  * acknowledged or refused.
  */
module Outbox {
  import opened Basics
  import opened EventTable
  import P = Publisher

  datatype Order = Order(amount: int, eventId: EventId)

  // Why the last delivery failed: an HTTP status, or nothing certain.
  datatype Code = Http(status: nat) | DeliveryUncertain

  datatype RowState = Pending | Acknowledged | Rejected

  datatype Row = Row(orderId: string, body: Input, state: RowState, attempts: nat, lastError: Option<Code>)

  // `sequence` is the row order of the outbox table.
  datatype Db = Db(orders: map<string, Order>, outbox: map<EventId, Row>, sequence: seq<EventId>)

  // Bytes of a character in UTF-8.
  function Utf8Width(c: char): int {
    if c as int < 0x80 then 1 else if c as int < 0x800 then 2 else if c as int < 0x10000 then 3 else 4
  }

  predicate ValidOrder(orderId: string, amount: int) {
    |orderId| > 0 && Total(Utf8Width, orderId) <= 128 && '\0' !in orderId && 0 <= amount <= 9223372036854775807
  }

  // ----- what the three transactions do -----

  // The database after create_order, and the event id it returns; None is an
  // error, which leaves the database unchanged.
  function Created(db: Db, orderId: string, amount: int, body: Input): (Db, Option<EventId>) {
    if !ValidOrder(orderId, amount) then (db, None)
    else if orderId in db.orders then
      (db, if db.orders[orderId].amount == amount then Some(db.orders[orderId].eventId) else None)
    else if body.eventId in db.outbox then (db, None)
    else
      (Db(db.orders[orderId := Order(amount, body.eventId)],
          db.outbox[body.eventId := Row(orderId, body, Pending, 0, None)],
          db.sequence + [body.eventId]),
       Some(body.eventId))
  }

  predicate IsPending(db: Db, id: EventId) {
    id in db.outbox && db.outbox[id].state == Pending
  }

  // The first `limit` pending events in row order.
  function PendingIn(db: Db, ids: seq<EventId>, limit: nat): seq<Input> {
    if ids == [] || limit == 0 then []
    else if IsPending(db, ids[0]) then [db.outbox[ids[0]].body] + PendingIn(db, ids[1..], limit - 1)
    else PendingIn(db, ids[1..], limit)
  }

  // One conditional UPDATE: only a pending row changes.
  function Marked(db: Db, id: EventId, state: RowState, code: Option<Code>): Db {
    if IsPending(db, id) then
      var row := db.outbox[id];
      db.(outbox := db.outbox[id := row.(state := state, attempts := row.attempts + 1, lastError := code)])
    else db
  }

  function MarkedAll(db: Db, ids: seq<EventId>, state: RowState, code: Option<Code>): Db {
    if |ids| == 0 then db else Marked(MarkedAll(db, ids[..|ids| - 1], state, code), ids[|ids| - 1], state, code)
  }

  // The client's report counts as an acknowledgement of these rows when it
  // repeats the ids as they were saved.
  predicate Confirmed(ids: seq<EventId>, report: P.Delivery) {
    report.Delivered? && P.LowerAll(ids) == ids
  }

  // What a report turns into: 400 and 413 are final refusals, any other
  // failure keeps the rows pending.
  function StateFor(ids: seq<EventId>, report: P.Delivery): RowState {
    if Confirmed(ids, report) then Acknowledged
    else if report == P.Failed(Some(400)) || report == P.Failed(Some(413)) then Rejected
    else Pending
  }

  function CodeFor(ids: seq<EventId>, report: P.Delivery): Option<Code> {
    if Confirmed(ids, report) then None
    else if report.Failed? && report.status.Some? && 100 <= report.status.value <= 599 then Some(Http(report.status.value))
    else Some(DeliveryUncertain)
  }

  // ----- invariant and history -----

  // Orders and outbox rows are in one-to-one correspondence.
  ghost predicate Consistent(db: Db) {
    && (forall o :: o in db.orders ==>
          db.orders[o].eventId in db.outbox && db.outbox[db.orders[o].eventId].orderId == o)
    && (forall id :: id in db.outbox ==>
          && db.outbox[id].body.eventId == id
          && db.outbox[id].orderId in db.orders && db.orders[db.outbox[id].orderId].eventId == id)
    && (forall id :: id in db.sequence <==> id in db.outbox) && NoDup(db.sequence)
  }

  // Orders and bodies are never changed, and a final state is never left.
  ghost predicate Grew(old_: Db, new_: Db) {
    && (forall o :: o in old_.orders ==> o in new_.orders && new_.orders[o] == old_.orders[o])
    && (forall id :: id in old_.outbox ==>
          && id in new_.outbox
          && new_.outbox[id].body == old_.outbox[id].body
          && new_.outbox[id].orderId == old_.outbox[id].orderId
          && (old_.outbox[id].state != Pending ==> new_.outbox[id] == old_.outbox[id]))
  }

  lemma {:induction false} CreatedKeeps(db: Db, orderId: string, amount: int, body: Input)
    requires Consistent(db)
    ensures var (next, id) := Created(db, orderId, amount, body);
            && Consistent(next) && Grew(db, next)
            && (id.Some? ==> orderId in next.orders && next.orders[orderId] == Order(amount, id.value))
            && (id.None? ==> next == db)
            && (next != db ==> id == Some(body.eventId) && IsPending(next, body.eventId) && body.eventId !in db.outbox
                               && next.outbox[body.eventId] == Row(orderId, body, Pending, 0, None)
                               && next.sequence == db.sequence + [body.eventId])
            && (id.None? && ValidOrder(orderId, amount) && orderId !in db.orders ==> body.eventId in db.outbox)
            && (id.None? && ValidOrder(orderId, amount) && orderId in db.orders ==> db.orders[orderId].amount != amount)
  {
    assert (db.sequence + [body.eventId])[..|db.sequence|] == db.sequence;
  }

  lemma {:induction false} MarkedKeeps(db: Db, id: EventId, state: RowState, code: Option<Code>)
    requires Consistent(db)
    ensures var next := Marked(db, id, state, code);
            && Consistent(next) && Grew(db, next) && next.orders == db.orders && next.outbox.Keys == db.outbox.Keys
  {
  }

  lemma {:induction false} MarkedAllKeeps(db: Db, ids: seq<EventId>, state: RowState, code: Option<Code>)
    requires Consistent(db)
    ensures var next := MarkedAll(db, ids, state, code);
            && Consistent(next) && Grew(db, next) && next.orders == db.orders && next.outbox.Keys == db.outbox.Keys
  {
    if |ids| > 0 {
      var init := ids[..|ids| - 1];
      MarkedAllKeeps(db, init, state, code);
      MarkedKeeps(MarkedAll(db, init, state, code), ids[|ids| - 1], state, code);
    }
  }

  // Exactly the selected rows that were still pending move.
  lemma {:induction false} MarkedAllMoves(db: Db, ids: seq<EventId>, state: RowState, code: Option<Code>, id: EventId)
    requires state != Pending || NoDup(ids)
    ensures MarkedAll(db, ids, state, code).outbox.Keys == db.outbox.Keys
    ensures id in db.outbox ==>
              MarkedAll(db, ids, state, code).outbox[id] ==
                if id in ids && db.outbox[id].state == Pending
                then db.outbox[id].(state := state, attempts := db.outbox[id].attempts + 1, lastError := code)
                else db.outbox[id]
  {
    if |ids| > 0 {
      MarkedAllMoves(db, ids[..|ids| - 1], state, code, id);
    }
  }

  lemma {:induction false} MarkedAllStates(db: Db, ids: seq<EventId>, state: RowState, code: Option<Code>, id: EventId)
    ensures MarkedAll(db, ids, state, code).outbox.Keys == db.outbox.Keys
    ensures id in db.outbox ==>
              var now := MarkedAll(db, ids, state, code).outbox[id].state;
              now == db.outbox[id].state || (now == state && id in ids)
  {
    if |ids| > 0 {
      MarkedAllStates(db, ids[..|ids| - 1], state, code, id);
    }
  }

  // ----- the selection -----

  // `batch` are the saved bodies of the pending rows at positions `pos`.
  ghost predicate BodiesAt(db: Db, ids: seq<EventId>, batch: seq<Input>, pos: seq<nat>) {
    |pos| == |batch| &&
    forall i :: 0 <= i < |pos| ==> pos[i] < |ids| && IsPending(db, ids[pos[i]]) && batch[i] == db.outbox[ids[pos[i]]].body
  }

  ghost predicate Rising(pos: seq<nat>) {
    forall i, j :: 0 <= i < j < |pos| ==> pos[i] < pos[j]
  }

  // A pending row is passed over only when `limit` rows before it are selected.
  ghost predicate NoneMissed(db: Db, ids: seq<EventId>, limit: nat, pos: seq<nat>) {
    forall k :: 0 <= k < |ids| && IsPending(db, ids[k]) && k !in pos ==> |pos| == limit && forall i :: 0 <= i < |pos| ==> pos[i] < k
  }

  // The first pending rows in row order, at most `limit`.
  ghost predicate SelectedAt(db: Db, ids: seq<EventId>, limit: nat, batch: seq<Input>, pos: seq<nat>) {
    |batch| <= limit && BodiesAt(db, ids, batch, pos) && Rising(pos) && NoneMissed(db, ids, limit, pos)
  }

  function Shifted(pos: seq<nat>): (out: seq<nat>)
    ensures |out| == |pos| && forall i :: 0 <= i < |pos| ==> out[i] == pos[i] + 1
  {
    seq(|pos|, i requires 0 <= i < |pos| => pos[i] + 1)
  }

  lemma {:induction false} ShiftedMember(pos: seq<nat>, k: nat)
    ensures k in pos ==> k + 1 in Shifted(pos)
  {
    if k in pos {
      var i :| 0 <= i < |pos| && pos[i] == k;
      assert Shifted(pos)[i] == k + 1;
    }
  }

  lemma {:induction false} ShiftedMisses(db: Db, ids: seq<EventId>, limit: nat, pos: seq<nat>)
    requires |ids| > 0 && !IsPending(db, ids[0]) && NoneMissed(db, ids[1..], limit, pos)
    ensures NoneMissed(db, ids, limit, Shifted(pos))
  {
    forall k | 0 <= k < |ids| && IsPending(db, ids[k]) && k !in Shifted(pos)
      ensures |pos| == limit && forall i :: 0 <= i < |pos| ==> Shifted(pos)[i] < k
    {
      assert ids[1..][k - 1] == ids[k];
      ShiftedMember(pos, k - 1);
    }
  }

  lemma {:induction false} ExtendedMisses(db: Db, ids: seq<EventId>, limit: nat, pos: seq<nat>)
    requires |ids| > 0 && limit > 0 && NoneMissed(db, ids[1..], limit - 1, pos)
    ensures NoneMissed(db, ids, limit, [0] + Shifted(pos))
  {
    var out := [0] + Shifted(pos);
    assert out[0] == 0;
    forall k | 0 <= k < |ids| && IsPending(db, ids[k]) && k !in out
      ensures |out| == limit && forall i :: 0 <= i < |out| ==> out[i] < k
    {
      assert ids[1..][k - 1] == ids[k];
      ShiftedMember(pos, k - 1);
      assert k !in Shifted(pos);
    }
  }

  lemma {:induction false} ExtendedSelection(db: Db, ids: seq<EventId>, batch: seq<Input>, pos: seq<nat>)
    requires |ids| > 0 && IsPending(db, ids[0]) && BodiesAt(db, ids[1..], batch, pos) && Rising(pos)
    ensures BodiesAt(db, ids, [db.outbox[ids[0]].body] + batch, [0] + Shifted(pos)) && Rising([0] + Shifted(pos))
  {
    var out, all := [0] + Shifted(pos), [db.outbox[ids[0]].body] + batch;
    forall i | 0 <= i < |out| ensures out[i] < |ids| && IsPending(db, ids[out[i]]) && all[i] == db.outbox[ids[out[i]]].body {
      if i > 0 {
        assert out[i] == pos[i - 1] + 1 && ids[1..][pos[i - 1]] == ids[out[i]];
      }
    }
  }

  // A selection takes the first pending rows in row order, as many as there
  // are up to the limit, and none other.
  lemma {:induction false} SelectionIsExact(db: Db, ids: seq<EventId>, limit: nat) returns (pos: seq<nat>)
    ensures SelectedAt(db, ids, limit, PendingIn(db, ids, limit), pos)
    decreases |ids|
  {
    if ids == [] || limit == 0 {
      pos := [];
    } else if IsPending(db, ids[0]) {
      var rest := SelectionIsExact(db, ids[1..], limit - 1);
      ExtendedSelection(db, ids, PendingIn(db, ids[1..], limit - 1), rest);
      ExtendedMisses(db, ids, limit, rest);
      pos := [0] + Shifted(rest);
    } else {
      var rest := SelectionIsExact(db, ids[1..], limit);
      ShiftedMisses(db, ids, limit, rest);
      pos := Shifted(rest);
    }
  }

  lemma {:induction false} NoDupPair(ids: seq<EventId>, i: nat, j: nat)
    requires NoDup(ids) && i < j < |ids|
    ensures ids[i] != ids[j]
    decreases |ids|
  {
    if j < |ids| - 1 {
      NoDupPair(ids[..|ids| - 1], i, j);
    }
  }

  lemma {:induction false} PairsNoDup(ids: seq<EventId>)
    requires forall i, j :: 0 <= i < j < |ids| ==> ids[i] != ids[j]
    ensures NoDup(ids)
  {
    if |ids| > 0 {
      PairsNoDup(ids[..|ids| - 1]);
    }
  }

  // The saved body of a row names that row.
  lemma {:induction false} RowAt(db: Db, limit: nat, pos: seq<nat>, i: nat)
    requires Consistent(db) && BodiesAt(db, db.sequence, PendingIn(db, db.sequence, limit), pos) && i < |pos|
    ensures var batch := PendingIn(db, db.sequence, limit);
            && batch[i].eventId == db.sequence[pos[i]] == IdsOf(batch)[i]
            && IsPending(db, batch[i].eventId) && db.outbox[batch[i].eventId].body == batch[i]
  {
    assert db.sequence[pos[i]] in db.outbox;
  }

  lemma {:induction false} RowsAreDistinct(db: Db, limit: nat, pos: seq<nat>)
    requires Consistent(db) && BodiesAt(db, db.sequence, PendingIn(db, db.sequence, limit), pos) && Rising(pos)
    ensures NoDup(IdsOf(PendingIn(db, db.sequence, limit)))
  {
    var ids := IdsOf(PendingIn(db, db.sequence, limit));
    forall i, j | 0 <= i < j < |ids| ensures ids[i] != ids[j] {
      RowAt(db, limit, pos, i);
      RowAt(db, limit, pos, j);
      NoDupPair(db.sequence, pos[i], pos[j]);
    }
    PairsNoDup(ids);
  }

  lemma {:induction false} PassedOver(db: Db, limit: nat, pos: seq<nat>, id: EventId)
    requires Consistent(db) && SelectedAt(db, db.sequence, limit, PendingIn(db, db.sequence, limit), pos)
    requires IsPending(db, id) && id !in IdsOf(PendingIn(db, db.sequence, limit))
    ensures |PendingIn(db, db.sequence, limit)| == limit
  {
    var k :| 0 <= k < |db.sequence| && db.sequence[k] == id;
    forall i | 0 <= i < |pos| ensures pos[i] != k {
      RowAt(db, limit, pos, i);
    }
    assert k !in pos;
  }

  // Row by row: saved bodies of distinct pending rows, and as long as the
  // selection is not full no pending row is missing.
  lemma {:induction false} SelectedArePending(db: Db, limit: nat)
    requires Consistent(db)
    ensures var batch := PendingIn(db, db.sequence, limit);
            && |batch| <= limit && NoDup(IdsOf(batch))
            && (forall i :: 0 <= i < |batch| ==> IsPending(db, batch[i].eventId) && db.outbox[batch[i].eventId].body == batch[i])
            && (forall id :: IsPending(db, id) && id !in IdsOf(batch) ==> |batch| == limit)
  {
    var batch := PendingIn(db, db.sequence, limit);
    var pos := SelectionIsExact(db, db.sequence, limit);
    RowsAreDistinct(db, limit, pos);
    forall i | 0 <= i < |batch| ensures IsPending(db, batch[i].eventId) && db.outbox[batch[i].eventId].body == batch[i] {
      RowAt(db, limit, pos, i);
    }
    forall id | IsPending(db, id) && id !in IdsOf(batch) ensures |batch| == limit {
      PassedOver(db, limit, pos, id);
    }
  }

  // As many rows as are pending, up to the limit.
  lemma {:induction false} SelectionSize(db: Db, limit: nat)
    requires Consistent(db)
    ensures |PendingIn(db, db.sequence, limit)| == Min(limit, |PendingIds(db)|)
    ensures SetOf(IdsOf(PendingIn(db, db.sequence, limit))) <= PendingIds(db)
  {
    var batch := PendingIn(db, db.sequence, limit);
    var ids := IdsOf(batch);
    SelectedArePending(db, limit);
    NoDupSize(ids);
    assert SetOf(ids) <= PendingIds(db);
    SubsetSize(SetOf(ids), PendingIds(db));
    if |batch| < limit {
      forall id | id in PendingIds(db) ensures id in SetOf(ids) {
        assert IsPending(db, id);
      }
      assert SetOf(ids) == PendingIds(db);
    }
  }

  // A selection depends only on which rows are pending and on their bodies.
  lemma {:induction false} SameSelection(a: Db, b: Db, ids: seq<EventId>, limit: nat)
    requires forall id :: (IsPending(a, id) <==> IsPending(b, id)) && (IsPending(a, id) ==> a.outbox[id].body == b.outbox[id].body)
    ensures PendingIn(a, ids, limit) == PendingIn(b, ids, limit)
    decreases |ids|
  {
    if ids != [] && limit > 0 {
      SameSelection(a, b, ids[1..], if IsPending(a, ids[0]) then limit - 1 else limit);
    }
  }

  lemma {:induction false} StillPending(db: Db, ids: seq<EventId>, code: Option<Code>)
    ensures var next := MarkedAll(db, ids, Pending, code);
            && next.sequence == db.sequence
            && forall id :: (IsPending(db, id) <==> IsPending(next, id)) && (IsPending(db, id) ==> db.outbox[id].body == next.outbox[id].body)
  {
    if |ids| > 0 {
      StillPending(db, ids[..|ids| - 1], code);
    }
  }

  // Rows that a pass leaves pending are selected again by the next pass.
  lemma {:induction false} SelectedAgain(db: Db, limit: nat, code: Option<Code>)
    ensures var batch := PendingIn(db, db.sequence, limit);
            var next := MarkedAll(db, IdsOf(batch), Pending, code);
            PendingIn(next, next.sequence, limit) == batch
  {
    var ids := IdsOf(PendingIn(db, db.sequence, limit));
    StillPending(db, ids, code);
    SameSelection(db, MarkedAll(db, ids, Pending, code), db.sequence, limit);
  }

  datatype DispatchResult = DispatchResult(attempted: nat, acknowledged: nat, rejected: nat, pending: nat, error: Option<Code>)

  function PendingIds(db: Db): set<EventId> {
    set id | id in db.outbox && db.outbox[id].state == Pending
  }

  // What a marked selected row looks like.
  function MarkedRow(row: Row, state: RowState, code: Option<Code>): Row {
    Row(row.orderId, row.body, state, row.attempts + 1, code)
  }

  // Each selected row moves once, all others stay.
  lemma {:induction false} PassMoves(db: Db, limit: nat, state: RowState, code: Option<Code>)
    requires Consistent(db)
    ensures var ids := IdsOf(PendingIn(db, db.sequence, limit));
            var next := MarkedAll(db, ids, state, code);
            && next.outbox.Keys == db.outbox.Keys
            && forall id :: id in db.outbox ==>
                 next.outbox[id] == if id in ids then MarkedRow(db.outbox[id], state, code) else db.outbox[id]
  {
    var ids := IdsOf(PendingIn(db, db.sequence, limit));
    SelectedArePending(db, limit);
    MarkedAllMoves(db, ids, state, code, "");
    forall id | id in db.outbox
      ensures MarkedAll(db, ids, state, code).outbox[id]
           == if id in ids then MarkedRow(db.outbox[id], state, code) else db.outbox[id]
    {
      MarkedAllMoves(db, ids, state, code, id);
    }
  }

  // Rows leave the pending ones by being acknowledged or rejected.
  lemma {:induction false} PassLeaves(db: Db, limit: nat, state: RowState, code: Option<Code>)
    requires Consistent(db)
    ensures var batch := PendingIn(db, db.sequence, limit);
            |PendingIds(MarkedAll(db, IdsOf(batch), state, code))| == |PendingIds(db)| - (if state == Pending then 0 else |batch|)
  {
    var ids := IdsOf(PendingIn(db, db.sequence, limit));
    var next := MarkedAll(db, ids, state, code);
    PassMoves(db, limit, state, code);
    SelectionSize(db, limit);
    SelectedArePending(db, limit);
    NoDupSize(ids);
    if state == Pending {
      assert PendingIds(next) == PendingIds(db);
    } else {
      assert PendingIds(next) == PendingIds(db) - SetOf(ids);
    }
  }

  class OutboxFile {
    var db: Db

    constructor ()
      ensures Consistent(db)
    {
      db := Db(map[], map[], []);
    }

    // BEGIN IMMEDIATE ... COMMIT: both rows or neither.
    method CreateOrder(orderId: string, amount: int, body: Input) returns (id: Option<EventId>)
      requires Consistent(db)
      modifies this
      ensures (db, id) == Created(old(db), orderId, amount, body)
      ensures Consistent(db) && Grew(old(db), db)
      ensures id.Some? ==> orderId in db.orders && db.orders[orderId] == Order(amount, id.value)
    {
      CreatedKeeps(db, orderId, amount, body);
      if !ValidOrder(orderId, amount) {
        return None;
      }
      if orderId in db.orders {
        if db.orders[orderId].amount != amount {
          return None;
        }
        return Some(db.orders[orderId].eventId);
      }
      if body.eventId in db.outbox {
        return None;
      }
      db := db.(orders := db.orders[orderId := Order(amount, body.eventId)]);
      db := db.(outbox := db.outbox[body.eventId := Row(orderId, body, Pending, 0, None)], sequence := db.sequence + [body.eventId]);
      id := Some(body.eventId);
    }

    // executemany over the selected ids, in one transaction.
    method Mark(ids: seq<EventId>, state: RowState, code: Option<Code>)
      requires Consistent(db)
      modifies this
      ensures db == MarkedAll(old(db), ids, state, code)
      ensures Consistent(db) && Grew(old(db), db)
    {
      var i := 0;
      while i < |ids|
        invariant 0 <= i <= |ids|
        invariant db == MarkedAll(old(db), ids[..i], state, code)
      {
        assert ids[..i + 1][..i] == ids[..i];
        if IsPending(db, ids[i]) {
          var row := db.outbox[ids[i]];
          db := db.(outbox := db.outbox[ids[i] := row.(state := state, attempts := row.attempts + 1, lastError := code)]);
        }
        i := i + 1;
      }
      assert ids[..i] == ids;
      MarkedAllKeeps(old(db), ids, state, code);
    }

    // One bounded pass: select pending rows, send them, mark them by the
    // client's report. None is the error for a bad batch size; `attempts` are
    // the answers the client would get.
    method DispatchOnce(batchSize: int, max: nat, attempts: seq<P.Attempt>) returns (r: Option<DispatchResult>)
      requires Consistent(db) && 1 <= max <= |attempts|
      modifies this
      ensures Consistent(db) && Grew(old(db), db)
      ensures r.Some? <==> 1 <= batchSize <= 100
      ensures r.None? ==> db == old(db)
      ensures r.Some? ==>
                var batch := PendingIn(old(db), old(db).sequence, batchSize);
                && r.value.attempted == |batch| == Min(batchSize, |PendingIds(old(db))|)
                && r.value.pending == |PendingIds(db)| == |PendingIds(old(db))| - r.value.acknowledged - r.value.rejected
                && (|batch| == 0 ==> db == old(db) && r.value == DispatchResult(0, 0, 0, |PendingIds(db)|, None))
      ensures r.Some? && r.value.attempted > 0 ==>
                var batch := PendingIn(old(db), old(db).sequence, batchSize);
                var report := P.Report(IdsOf(batch), max, attempts);
                && report.Some?
                && r.value.acknowledged == (if Confirmed(IdsOf(batch), report.value) then |batch| else 0)
                && r.value.rejected == (if StateFor(IdsOf(batch), report.value) == Rejected then |batch| else 0)
                && r.value.error == CodeFor(IdsOf(batch), report.value)
                && db == MarkedAll(old(db), IdsOf(batch), StateFor(IdsOf(batch), report.value), r.value.error)
                && db.outbox.Keys == old(db).outbox.Keys
                && (forall id :: id in db.outbox ==>
                      db.outbox[id] == if id in IdsOf(batch)
                                       then MarkedRow(old(db).outbox[id], StateFor(IdsOf(batch), report.value), r.value.error)
                                       else old(db).outbox[id])
                && (StateFor(IdsOf(batch), report.value) == Pending ==> PendingIn(db, db.sequence, batchSize) == batch)
    {
      if batchSize < 1 || batchSize > 100 {
        return None;
      }
      var batch := PendingIn(db, db.sequence, batchSize);
      SelectionSize(db, batchSize);
      if |batch| == 0 {
        return Some(DispatchResult(0, 0, 0, |PendingIds(db)|, None));
      }
      var ids := IdsOf(batch);
      var report, _ := P.SendBatch(ids, max, attempts);
      var state, code := StateFor(ids, report), CodeFor(ids, report);
      PassMoves(db, batchSize, state, code);
      PassLeaves(db, batchSize, state, code);
      SelectedAgain(db, batchSize, code);
      Mark(ids, state, code);
      r := Some(DispatchResult(|batch|, if state == Acknowledged then |batch| else 0, if state == Rejected then |batch| else 0,
                               |PendingIds(db)|, code));
    }
  }
}
