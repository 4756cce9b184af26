/**
  * The accounting of one measured run: what the loop adds up from request
  * results and from observations.
  */
module Accounting {
  import opened Basics

  // A request as its worker reports it; times count from the start of the run.
  datatype Sent = Sent(ids: seq<Id>, accepted: bool, ambiguous: bool, started: int, finished: int)

  // The recorded sample of a request.
  datatype Sample = Sample(started: int, finished: int, elapsed: int, events: nat, accepted: bool, ambiguous: bool)

  // ----- what the counters mean -----

  // The ways in which requests are counted.
  datatype Kind =
    | Any
    | StartedBy(t: int)
    | StartedAfter(t: int)
    | AckedEver
    | AckedBy(t: int)
    | AckedAfter(t: int)
    | Unclear
    | Refused

  predicate Is(kind: Kind, v: Sent) {
    match kind
    case Any => true
    case StartedBy(t) => v.started <= t
    case StartedAfter(t) => v.started > t
    case AckedEver => v.accepted
    case AckedBy(t) => v.accepted && v.finished <= t
    case AckedAfter(t) => v.accepted && v.finished > t
    case Unclear => !v.accepted && v.ambiguous
    case Refused => !v.accepted && !v.ambiguous
  }

  // The ids of the requests of one kind, in the order they were recorded.
  function IdsOf(kind: Kind, sent: seq<Sent>): seq<Id> {
    if |sent| == 0 then []
    else IdsOf(kind, sent[..|sent| - 1]) + if Is(kind, sent[|sent| - 1]) then sent[|sent| - 1].ids else []
  }

  function SampleOf(v: Sent): Sample {
    Sample(v.started, v.finished, v.finished - v.started, |v.ids|, v.accepted, v.ambiguous)
  }

  function SamplesOf(sent: seq<Sent>): seq<Sample> {
    seq(|sent|, i requires 0 <= i < |sent| => SampleOf(sent[i]))
  }

  function AckNsOf(sent: seq<Sent>): seq<int> {
    if |sent| == 0 then []
    else
      AckNsOf(sent[..|sent| - 1]) +
      if sent[|sent| - 1].accepted then [sent[|sent| - 1].finished - sent[|sent| - 1].started] else []
  }

  function Stamp(m: map<Id, int>, ids: seq<Id>, t: int): map<Id, int> {
    if |ids| == 0 then m else Stamp(m, ids[..|ids| - 1], t)[ids[|ids| - 1] := t]
  }

  // When each accepted id was acknowledged.
  function AckTimes(sent: seq<Sent>): map<Id, int> {
    if |sent| == 0 then map[]
    else
      var m, v := AckTimes(sent[..|sent| - 1]), sent[|sent| - 1];
      if v.accepted then Stamp(m, v.ids, v.finished) else m
  }

  lemma {:induction false} IdsOfAppend(kind: Kind, sent: seq<Sent>, v: Sent)
    ensures IdsOf(kind, sent + [v]) == IdsOf(kind, sent) + if Is(kind, v) then v.ids else []
  {
    assert (sent + [v])[..|sent|] == sent;
  }

  // One more request: what changes in each list and count.
  lemma {:induction false} Appended(sent: seq<Sent>, v: Sent, t: int)
    ensures IdsOf(Any, sent + [v]) == IdsOf(Any, sent) + v.ids
    ensures IdsOf(AckedEver, sent + [v]) == if v.accepted then IdsOf(AckedEver, sent) + v.ids else IdsOf(AckedEver, sent)
    ensures IdsOf(Unclear, sent + [v]) == if !v.accepted && v.ambiguous then IdsOf(Unclear, sent) + v.ids else IdsOf(Unclear, sent)
    ensures SamplesOf(sent + [v]) == SamplesOf(sent) + [SampleOf(v)]
    ensures AckNsOf(sent + [v]) == if v.accepted then AckNsOf(sent) + [v.finished - v.started] else AckNsOf(sent)
    ensures AckTimes(sent + [v]) == if v.accepted then Stamp(AckTimes(sent), v.ids, v.finished) else AckTimes(sent)
  {
    IdsOfAppend(Any, sent, v);
    IdsOfAppend(AckedEver, sent, v);
    IdsOfAppend(Unclear, sent, v);
    var more := sent + [v];
    assert more[..|sent|] == sent;
  }

  lemma {:induction false} Counted(sent: seq<Sent>, v: Sent, t: int)
    ensures var n := |v.ids|;
            && |IdsOf(StartedBy(t), sent + [v])| == |IdsOf(StartedBy(t), sent)| + (if v.started > t then 0 else n)
            && |IdsOf(StartedAfter(t), sent + [v])| == |IdsOf(StartedAfter(t), sent)| + (if v.started > t then n else 0)
            && |IdsOf(AckedBy(t), sent + [v])| == |IdsOf(AckedBy(t), sent)| + (if v.accepted && v.finished <= t then n else 0)
            && |IdsOf(AckedAfter(t), sent + [v])| == |IdsOf(AckedAfter(t), sent)| + (if v.accepted && v.finished > t then n else 0)
            && |IdsOf(Refused, sent + [v])| == |IdsOf(Refused, sent)| + (if v.accepted || v.ambiguous then 0 else n)
  {
    IdsOfAppend(StartedBy(t), sent, v);
    IdsOfAppend(StartedAfter(t), sent, v);
    IdsOfAppend(AckedBy(t), sent, v);
    IdsOfAppend(AckedAfter(t), sent, v);
    IdsOfAppend(Refused, sent, v);
  }

  // Splits add up.
  lemma {:induction false} KindsAddUp(sent: seq<Sent>, t: int)
    ensures |IdsOf(Any, sent)| == |IdsOf(StartedBy(t), sent)| + |IdsOf(StartedAfter(t), sent)|
    ensures |IdsOf(Any, sent)| == |IdsOf(AckedEver, sent)| + |IdsOf(Unclear, sent)| + |IdsOf(Refused, sent)|
    ensures |IdsOf(AckedEver, sent)| == |IdsOf(AckedBy(t), sent)| + |IdsOf(AckedAfter(t), sent)|
  {
    if |sent| > 0 {
      KindsAddUp(sent[..|sent| - 1], t);
    }
  }

  // The run's fields about attempts, about acknowledgements and about the
  // requests without one.
  datatype Attempts = Attempts(samples: seq<Sample>, ids: seq<Id>, count: nat, inWindow: nat, afterWindow: nat)

  datatype Acks = Acks(ids: seq<Id>, inWindow: nat, afterWindow: nat, ns: seq<int>, at: map<Id, int>)

  datatype Others = Others(ambiguousIds: seq<Id>, ambiguous: nat, rejected: nat)

  ghost predicate AttemptsOk(f: Attempts, window: int, sent: seq<Sent>) {
    && f.samples == SamplesOf(sent) && f.ids == IdsOf(Any, sent) && f.count == |f.ids|
    && f.inWindow == |IdsOf(StartedBy(window), sent)| && f.afterWindow == |IdsOf(StartedAfter(window), sent)|
  }

  ghost predicate AcksOk(f: Acks, window: int, sent: seq<Sent>) {
    && f.ids == IdsOf(AckedEver, sent) && f.ns == AckNsOf(sent) && f.at == AckTimes(sent)
    && f.inWindow == |IdsOf(AckedBy(window), sent)| && f.afterWindow == |IdsOf(AckedAfter(window), sent)|
  }

  ghost predicate OthersOk(f: Others, sent: seq<Sent>) {
    f.ambiguousIds == IdsOf(Unclear, sent) && f.ambiguous == |f.ambiguousIds| && f.rejected == |IdsOf(Refused, sent)|
  }

  class Requests {
    const window: int
    var attempts: Attempts
    var acks: Acks
    var others: Others
    ghost var sent: seq<Sent>

    // The fields are exactly those of the requests recorded so far.
    ghost predicate Valid()
      reads this
    {
      AttemptsOk(attempts, window, sent) && AcksOk(acks, window, sent) && OthersOk(others, sent)
    }

    constructor (window: int)
      ensures this.window == window && sent == [] && Valid()
    {
      this.window := window;
      attempts, acks, others := Attempts([], [], 0, 0, 0), Acks([], 0, 0, [], map[]), Others([], 0, 0);
      sent := [];
    }

    // recordRequest: the attempt first, then its answer.
    method Record(v: Sent)
      requires Valid()
      modifies this
      ensures Valid() && sent == old(sent) + [v]
    {
      ghost var past := sent;
      RecordAttempt(v, past);
      RecordAck(v, past);
      RecordOther(v, past);
      sent := past + [v];
    }

    method RecordAttempt(v: Sent, ghost past: seq<Sent>)
      requires AttemptsOk(attempts, window, past)
      modifies this`attempts
      ensures AttemptsOk(attempts, window, past + [v])
    {
      Appended(past, v, window);
      Counted(past, v, window);
      var f := attempts;
      f := f.(samples := f.samples + [Sample(v.started, v.finished, v.finished - v.started, |v.ids|, v.accepted, v.ambiguous)],
              ids := f.ids + v.ids, count := f.count + |v.ids|);
      if v.started > window {
        f := f.(afterWindow := f.afterWindow + |v.ids|);
      } else {
        f := f.(inWindow := f.inWindow + |v.ids|);
      }
      attempts := f;
    }

    method RecordAck(v: Sent, ghost past: seq<Sent>)
      requires AcksOk(acks, window, past)
      modifies this`acks
      ensures AcksOk(acks, window, past + [v])
    {
      Appended(past, v, window);
      Counted(past, v, window);
      if v.accepted {
        var f := acks;
        if v.finished > window {
          f := f.(afterWindow := f.afterWindow + |v.ids|);
        } else {
          f := f.(inWindow := f.inWindow + |v.ids|);
        }
        var at := StampAll(f.at, v.ids, v.finished);
        acks := f.(ids := f.ids + v.ids, ns := f.ns + [v.finished - v.started], at := at);
      }
    }

    method RecordOther(v: Sent, ghost past: seq<Sent>)
      requires OthersOk(others, past)
      modifies this`others
      ensures OthersOk(others, past + [v])
    {
      Appended(past, v, window);
      Counted(past, v, window);
      var f := others;
      if !v.accepted {
        if v.ambiguous {
          others := f.(ambiguous := f.ambiguous + |v.ids|, ambiguousIds := f.ambiguousIds + v.ids);
        } else {
          others := f.(rejected := f.rejected + |v.ids|);
        }
      }
    }
  }

  method StampAll(m: map<Id, int>, ids: seq<Id>, t: int) returns (out: map<Id, int>)
    ensures out == Stamp(m, ids, t)
  {
    out := m;
    var i := 0;
    while i < |ids|
      invariant 0 <= i <= |ids|
      invariant out == Stamp(m, ids[..i], t)
    {
      assert ids[..i + 1][..i] == ids[..i];
      out := out[ids[i] := t];
      i := i + 1;
    }
    assert ids[..i] == ids;
  }

  // ----- observations -----

  // A stored row as an observation returns it, with its age.
  datatype Row = Row(id: Id, latency: int)

  datatype PollError = NoError | Unavailable | Canceled | OtherError

  datatype PollResult = PollResult(started: int, finished: int, rows: seq<Row>, error: PollError)

  // A point of the backlog before the acknowledgement counts are filled in.
  datatype Point = Point(elapsed: int, visible: nat)

  ghost predicate Rising(points: seq<Point>) {
    |points| <= 1 ||
    ( var a, b := points[|points| - 2], points[|points| - 1];
      a.elapsed <= b.elapsed && a.visible <= b.visible && Rising(points[..|points| - 1]))
  }

  function LastElapsed(points: seq<Point>): int {
    if |points| == 0 then 0 else points[|points| - 1].elapsed
  }

  function LastVisible(points: seq<Point>): nat {
    if |points| == 0 then 0 else points[|points| - 1].visible
  }

  function RowIds(rows: seq<Row>): set<Id> {
    set i | 0 <= i < |rows| :: rows[i].id
  }

  // ----- what a list of observations amounts to -----

  // Ids first seen at time t join those seen before.
  function WithFirst(was: map<Id, int>, ids: set<Id>, t: int): map<Id, int> {
    map id | id in was.Keys + ids :: if id in was then was[id] else t
  }

  // When each id was first observed.
  function FirstSeen(polls: seq<PollResult>): map<Id, int> {
    if |polls| == 0 then map[]
    else
      var last := polls[|polls| - 1];
      WithFirst(FirstSeen(polls[..|polls| - 1]), RowIds(last.rows), last.finished)
  }

  lemma {:induction false} SeenMember(polls: seq<PollResult>, id: Id)
    ensures id in FirstSeen(polls) <==> exists i :: 0 <= i < |polls| && id in RowIds(polls[i].rows)
  {
    if |polls| > 0 {
      SeenMember(polls[..|polls| - 1], id);
    }
  }

  // The time of an id is the finish time of the first observation that
  // returned it.
  lemma {:induction false} FirstSeenIsFirst(polls: seq<PollResult>, id: Id, i: nat)
    requires i < |polls| && id in RowIds(polls[i].rows) && forall j :: 0 <= j < i ==> id !in RowIds(polls[j].rows)
    ensures id in FirstSeen(polls) && FirstSeen(polls)[id] == polls[i].finished
    decreases |polls|
  {
    var init := polls[..|polls| - 1];
    if i < |init| {
      FirstSeenIsFirst(init, id, i);
    } else {
      SeenMember(init, id);
    }
  }

  // The rows whose ids were not seen before, in order.
  function NewRows(seen: set<Id>, rows: seq<Row>): seq<Row> {
    if |rows| == 0 then []
    else
      var init, last := rows[..|rows| - 1], rows[|rows| - 1];
      NewRows(seen, init) + if last.id in seen || last.id in RowIds(init) then [] else [last]
  }

  // For each id the first row that was observed, in the order of observation.
  function FirstRows(polls: seq<PollResult>): seq<Row> {
    if |polls| == 0 then []
    else
      var init := polls[..|polls| - 1];
      FirstRows(init) + NewRows(FirstSeen(init).Keys, polls[|polls| - 1].rows)
  }

  function IdsOfRows(rows: seq<Row>): seq<Id> {
    if |rows| == 0 then [] else IdsOfRows(rows[..|rows| - 1]) + [rows[|rows| - 1].id]
  }

  // The usable latencies of rows, in order; a negative one is left out.
  function Latencies(rows: seq<Row>): seq<int> {
    if |rows| == 0 then []
    else Latencies(rows[..|rows| - 1]) + if rows[|rows| - 1].latency < 0 then [] else [rows[|rows| - 1].latency]
  }

  ghost predicate AllUsable(rows: seq<Row>) {
    |rows| == 0 || (rows[|rows| - 1].latency >= 0 && AllUsable(rows[..|rows| - 1]))
  }

  // No more latencies than rows, as many exactly when all are usable.
  lemma {:induction false} LatenciesCount(rows: seq<Row>)
    ensures |Latencies(rows)| <= |rows| == |IdsOfRows(rows)|
    ensures |Latencies(rows)| == |rows| <==> AllUsable(rows)
    ensures forall i :: 0 <= i < |Latencies(rows)| ==> Latencies(rows)[i] >= 0
  {
    if |rows| > 0 {
      LatenciesCount(rows[..|rows| - 1]);
    }
  }

  lemma {:induction false} RowsAppend(rows: seq<Row>, r: Row)
    ensures IdsOfRows(rows + [r]) == IdsOfRows(rows) + [r.id]
    ensures AllUsable(rows + [r]) <==> AllUsable(rows) && r.latency >= 0
    ensures Latencies(rows + [r]) == Latencies(rows) + if r.latency < 0 then [] else [r.latency]
  {
    assert (rows + [r])[..|rows|] == rows;
  }

  function PointsOf(polls: seq<PollResult>): seq<Point> {
    if |polls| == 0 then []
    else PointsOf(polls[..|polls| - 1]) + [Point(polls[|polls| - 1].finished, |FirstSeen(polls).Keys|)]
  }

  // Queries that took longer than two poll intervals, polls that started later
  // than that after the one before, and tolerated outages.
  function SlowIn(interval: int, polls: seq<PollResult>): nat {
    if |polls| == 0 then 0
    else
      var last := polls[|polls| - 1];
      SlowIn(interval, polls[..|polls| - 1]) + if last.finished - last.started > 2 * interval then 1 else 0
  }

  function LateIn(interval: int, polls: seq<PollResult>): nat {
    if |polls| <= 1 then 0
    else
      var gap := polls[|polls| - 1].started - polls[|polls| - 2].started;
      LateIn(interval, polls[..|polls| - 1]) + if gap > 2 * interval then 1 else 0
  }

  function OutagesIn(reconnect: bool, polls: seq<PollResult>): nat {
    if |polls| == 0 then 0
    else OutagesIn(reconnect, polls[..|polls| - 1]) + if reconnect && polls[|polls| - 1].error.Unavailable? then 1 else 0
  }

  // The counters the accounting loop keeps; `previous` is the start of the
  // last observation.
  datatype Timing = Timing(outages: nat, slowQueries: nat, latePolls: nat, previous: Option<int>)

  function TimingAfter(interval: int, reconnect: bool, t: Timing, v: PollResult): Timing {
    Timing(t.outages + if reconnect && v.error.Unavailable? then 1 else 0,
           t.slowQueries + if v.finished - v.started > 2 * interval then 1 else 0,
           t.latePolls + if t.previous.Some? && v.started - t.previous.value > 2 * interval then 1 else 0,
           Some(v.started))
  }

  function TimingOf(interval: int, reconnect: bool, polls: seq<PollResult>): Timing {
    if |polls| == 0 then Timing(0, 0, 0, None)
    else TimingAfter(interval, reconnect, TimingOf(interval, reconnect, polls[..|polls| - 1]), polls[|polls| - 1])
  }

  lemma {:induction false} TimingMeans(interval: int, reconnect: bool, polls: seq<PollResult>)
    ensures var t := TimingOf(interval, reconnect, polls);
            && t.slowQueries == SlowIn(interval, polls) && t.latePolls == LateIn(interval, polls)
            && t.outages == OutagesIn(reconnect, polls)
            && t.previous == if |polls| == 0 then None else Some(polls[|polls| - 1].started)
  {
    if |polls| > 0 {
      TimingMeans(interval, reconnect, polls[..|polls| - 1]);
    }
  }

  ghost predicate InOrder(polls: seq<PollResult>) {
    |polls| <= 1 || (polls[|polls| - 2].finished <= polls[|polls| - 1].finished && InOrder(polls[..|polls| - 1]))
  }

  lemma {:induction false} InOrderPrefix(polls: seq<PollResult>, n: nat)
    requires InOrder(polls) && n <= |polls|
    ensures InOrder(polls[..n])
    decreases |polls|
  {
    if n == |polls| {
      assert polls[..n] == polls;
    } else {
      InOrderPrefix(polls[..|polls| - 1], n);
      assert polls[..|polls| - 1][..n] == polls[..n];
    }
  }

  lemma {:induction false} PointsAt(polls: seq<PollResult>, i: nat)
    requires i < |polls|
    ensures |PointsOf(polls)| == |polls| && PointsOf(polls)[i].elapsed == polls[i].finished
    decreases |polls|
  {
    var init := polls[..|polls| - 1];
    if |init| > 0 {
      PointsAt(init, if i < |init| then i else 0);
    }
  }

  // Observations in the order of time give a rising backlog.
  lemma {:induction false} PointsRise(polls: seq<PollResult>)
    requires InOrder(polls)
    ensures Rising(PointsOf(polls)) && LastVisible(PointsOf(polls)) <= |FirstSeen(polls).Keys|
    ensures LastElapsed(PointsOf(polls)) == if |polls| == 0 then 0 else polls[|polls| - 1].finished
  {
    if |polls| > 0 {
      var init := polls[..|polls| - 1];
      PointsRise(init);
      SubsetSize(FirstSeen(init).Keys, FirstSeen(polls).Keys);
      assert PointsOf(polls)[..|PointsOf(init)|] == PointsOf(init);
    }
  }

  // ----- the observer's side of the accounting -----

  // What the rows seen so far amount to.
  datatype SeenRows = SeenRows(seen: set<Id>, observedAt: map<Id, int>, storedIds: seq<Id>, visibilityNs: seq<int>)

  // One row of an observation that finished at t.
  function WithRow(x: SeenRows, row: Row, t: int): SeenRows {
    if row.id in x.seen then x
    else
      SeenRows(x.seen + {row.id}, x.observedAt[row.id := t], x.storedIds + [row.id],
               if row.latency < 0 then x.visibilityNs else x.visibilityNs + [row.latency])
  }

  function WithRows(x: SeenRows, rows: seq<Row>, t: int): SeenRows {
    if |rows| == 0 then x else WithRow(WithRows(x, rows[..|rows| - 1], t), rows[|rows| - 1], t)
  }

  function SeenIn(polls: seq<PollResult>): SeenRows {
    if |polls| == 0 then SeenRows({}, map[], [], [])
    else WithRows(SeenIn(polls[..|polls| - 1]), polls[|polls| - 1].rows, polls[|polls| - 1].finished)
  }

  ghost predicate TimesAre(x: SeenRows, at: map<Id, int>) {
    x.observedAt == at && x.seen == at.Keys
  }

  ghost predicate ListsAre(x: SeenRows, first: seq<Row>) {
    x.storedIds == IdsOfRows(first) && x.visibilityNs == Latencies(first)
  }

  ghost predicate Distinct(x: SeenRows) {
    x.seen == SetOf(x.storedIds) && NoDup(x.storedIds)
  }

  lemma {:induction false} SeenGrows(x: SeenRows, rows: seq<Row>, t: int)
    ensures WithRows(x, rows, t).seen == x.seen + RowIds(rows)
  {
    if |rows| > 0 {
      var n := |rows| - 1;
      SeenGrows(x, rows[..n], t);
      RowIdsAppend(rows, n);
      assert rows[..n + 1] == rows;
    }
  }

  lemma {:induction false} RowTimes(x: SeenRows, at: map<Id, int>, row: Row, t: int)
    requires TimesAre(x, at)
    ensures TimesAre(WithRow(x, row, t), WithFirst(at, {row.id}, t))
  {
    if row.id in x.seen {
      assert WithFirst(at, {row.id}, t) == at;
    } else {
      assert WithFirst(at, {row.id}, t) == at[row.id := t];
    }
  }

  lemma {:induction false} RowsTimes(x: SeenRows, at: map<Id, int>, rows: seq<Row>, t: int)
    requires TimesAre(x, at)
    ensures TimesAre(WithRows(x, rows, t), WithFirst(at, RowIds(rows), t))
  {
    if |rows| == 0 {
      assert WithFirst(at, RowIds(rows), t) == at;
    } else {
      var n := |rows| - 1;
      RowsTimes(x, at, rows[..n], t);
      RowTimes(WithRows(x, rows[..n], t), WithFirst(at, RowIds(rows[..n]), t), rows[n], t);
      WithFirstRow(at, rows, n, t);
      assert rows[..n + 1] == rows;
    }
  }

  lemma {:induction false} RowsDistinct(x: SeenRows, rows: seq<Row>, t: int)
    requires Distinct(x)
    ensures Distinct(WithRows(x, rows, t))
  {
    if |rows| > 0 {
      var init := rows[..|rows| - 1];
      RowsDistinct(x, init, t);
      SetOfAppend(WithRows(x, init, t).storedIds, rows[|rows| - 1].id);
    }
  }

  lemma {:induction false} RowsLists(x: SeenRows, first: seq<Row>, rows: seq<Row>, t: int)
    requires ListsAre(x, first)
    ensures ListsAre(WithRows(x, rows, t), first + NewRows(x.seen, rows))
  {
    if |rows| == 0 {
      assert first + NewRows(x.seen, rows) == first;
    } else {
      var init, last := rows[..|rows| - 1], rows[|rows| - 1];
      RowsLists(x, first, init, t);
      SeenGrows(x, init, t);
      RowsAppend(first + NewRows(x.seen, init), last);
      assert first + (NewRows(x.seen, init) + [last]) == (first + NewRows(x.seen, init)) + [last];
      assert first + (NewRows(x.seen, init) + []) == first + NewRows(x.seen, init);
    }
  }

  // First-seen times, ids and latencies are those of each id's first row.
  lemma {:induction false} SeenMeans(polls: seq<PollResult>)
    ensures TimesAre(SeenIn(polls), FirstSeen(polls)) && ListsAre(SeenIn(polls), FirstRows(polls)) && Distinct(SeenIn(polls))
  {
    if |polls| > 0 {
      var init, last := polls[..|polls| - 1], polls[|polls| - 1];
      SeenMeans(init);
      RowsTimes(SeenIn(init), FirstSeen(init), last.rows, last.finished);
      RowsLists(SeenIn(init), FirstRows(init), last.rows, last.finished);
      RowsDistinct(SeenIn(init), last.rows, last.finished);
    }
  }

  lemma {:induction false} UsableConcat(a: seq<Row>, b: seq<Row>)
    ensures AllUsable(a + b) <==> AllUsable(a) && AllUsable(b)
    decreases |b|
  {
    if |b| == 0 {
      assert a + b == a;
    } else {
      assert (a + b)[..|a + b| - 1] == a + b[..|b| - 1];
      UsableConcat(a, b[..|b| - 1]);
    }
  }

  // A new row is usable or makes the observation fail.
  lemma {:induction false} UsableStep(x: SeenRows, rows: seq<Row>, i: nat, t: int)
    requires i < |rows|
    ensures WithRows(x, rows[..i + 1], t) == WithRow(WithRows(x, rows[..i], t), rows[i], t)
    ensures AllUsable(NewRows(x.seen, rows[..i + 1])) <==>
            AllUsable(NewRows(x.seen, rows[..i])) && (rows[i].id !in WithRows(x, rows[..i], t).seen ==> rows[i].latency >= 0)
  {
    var init := rows[..i];
    assert rows[..i + 1][..i] == init && rows[..i + 1][i] == rows[i];
    SeenGrows(x, init, t);
    RowsAppend(NewRows(x.seen, init), rows[i]);
    assert NewRows(x.seen, init) + [] == NewRows(x.seen, init);
  }

  // An observation error that is neither a tolerated outage nor the expected
  // cancellation.
  predicate FatalError(reconnect: bool, error: PollError, expectedCancel: bool) {
    !error.NoError? && !(reconnect && error.Unavailable?) && !(expectedCancel && error.Canceled?)
  }

  // Poll i ends the measurement: its query failed, or it brought a new row
  // whose latency is negative. `expected` says that a cancellation was due.
  ghost predicate Troubles(reconnect: bool, polls: seq<PollResult>, i: nat, expected: bool)
    requires i < |polls|
  {
    FatalError(reconnect, polls[i].error, expected) || !AllUsable(NewRows(SeenIn(polls[..i]).seen, polls[i].rows))
  }

  // One of the polls does; a cancellation may be due for the last one.
  ghost predicate Troubled(reconnect: bool, polls: seq<PollResult>, expectedLast: bool) {
    |polls| > 0 && (Troubled(reconnect, polls[..|polls| - 1], false) || Troubles(reconnect, polls, |polls| - 1, expectedLast))
  }

  lemma {:induction false} TroubledExactly(reconnect: bool, polls: seq<PollResult>)
    ensures Troubled(reconnect, polls, false) <==> exists i :: 0 <= i < |polls| && Troubles(reconnect, polls, i, false)
    decreases |polls|
  {
    if |polls| > 0 {
      var init := polls[..|polls| - 1];
      TroubledExactly(reconnect, init);
      forall i | 0 <= i < |init| ensures Troubles(reconnect, init, i, false) <==> Troubles(reconnect, polls, i, false) {
        assert init[..i] == polls[..i];
      }
    }
  }

  // Without trouble every id gave a usable latency.
  lemma {:induction false} UntroubledIsUsable(reconnect: bool, polls: seq<PollResult>, expectedLast: bool)
    requires !Troubled(reconnect, polls, expectedLast)
    ensures AllUsable(FirstRows(polls))
  {
    if |polls| > 0 {
      var init := polls[..|polls| - 1];
      UntroubledIsUsable(reconnect, init, false);
      SeenMeans(init);
      UsableConcat(FirstRows(init), NewRows(SeenIn(init).seen, polls[|polls| - 1].rows));
    }
  }

  lemma {:induction false} TroubledAppend(reconnect: bool, polls: seq<PollResult>, v: PollResult, expected: bool)
    ensures Troubled(reconnect, polls + [v], expected) <==>
            || Troubled(reconnect, polls, false) || FatalError(reconnect, v.error, expected)
            || !AllUsable(NewRows(SeenIn(polls).seen, v.rows))
  {
    assert (polls + [v])[..|polls|] == polls;
  }

  // What is kept about the recorded polls.
  ghost predicate Kept(pollInterval: int, reconnect: bool, polls: seq<PollResult>, late: bool, expectedLast: bool,
                       rows: SeenRows, timing: Timing, points: seq<Point>, failed: bool) {
    && rows == SeenIn(polls) && timing == TimingOf(pollInterval, reconnect, polls) && points == PointsOf(polls)
    && failed == (late || Troubled(reconnect, polls, expectedLast))
  }

  // What one more observation does to it.
  lemma {:induction false} OneMorePoll(pollInterval: int, reconnect: bool, polls: seq<PollResult>, late: bool,
                                       rows: SeenRows, timing: Timing, points: seq<Point>, failed: bool,
                                       v: PollResult, expected: bool)
    requires Kept(pollInterval, reconnect, polls, late, false, rows, timing, points, failed)
    ensures var next := WithRows(rows, v.rows, v.finished);
            && rows.seen <= next.seen
            && Kept(pollInterval, reconnect, polls + [v], late, expected, next,
                    TimingAfter(pollInterval, reconnect, timing, v), points + [Point(v.finished, |next.seen|)],
                    failed || FatalError(reconnect, v.error, expected) || !AllUsable(NewRows(rows.seen, v.rows)))
  {
    assert (polls + [v])[..|polls|] == polls;
    SeenGrows(SeenIn(polls), v.rows, v.finished);
    SeenMeans(polls + [v]);
    TroubledAppend(reconnect, polls, v, expected);
  }

  class Observations {
    const pollInterval: int
    const reconnect: bool
    var rows: SeenRows
    var failed: bool
    var timing: Timing
    var points: seq<Point>
    ghost var recorded: seq<PollResult>
    // The drain deadline was missed; the last observation was cancelled on purpose.
    ghost var late: bool
    ghost var expectedLast: bool

    // All fields are those of the recorded observations.
    ghost predicate Valid()
      reads this
    {
      Kept(pollInterval, reconnect, recorded, late, expectedLast, rows, timing, points, failed)
    }

    constructor (pollInterval: int, reconnect: bool)
      ensures Valid() && recorded == [] && !late && !expectedLast && this.pollInterval == pollInterval && this.reconnect == reconnect
    {
      this.pollInterval := pollInterval;
      this.reconnect := reconnect;
      rows, failed := SeenRows({}, map[], [], []), false;
      timing, points, recorded := Timing(0, 0, 0, None), [], [];
      late, expectedLast := false, false;
    }

    // recordObservation
    method Record(v: PollResult, expectedCancel: bool)
      requires Valid() && !expectedLast
      modifies this
      ensures Valid() && recorded == old(recorded) + [v] && old(rows.seen) <= rows.seen
      ensures late == old(late) && expectedLast == expectedCancel && (old(failed) ==> failed)
    {
      OneMorePoll(pollInterval, reconnect, recorded, late, rows, timing, points, failed, v, expectedCancel);
      RecordTiming(v, expectedCancel);
      RecordRows(v.rows, v.finished);
      points := points + [Point(v.finished, |rows.seen|)];
      recorded, expectedLast := recorded + [v], expectedCancel;
    }

    method RecordTiming(v: PollResult, expectedCancel: bool)
      modifies this`timing, this`failed
      ensures timing == TimingAfter(pollInterval, reconnect, old(timing), v)
      ensures failed == (old(failed) || FatalError(reconnect, v.error, expectedCancel))
    {
      if v.finished - v.started > 2 * pollInterval {
        timing := timing.(slowQueries := timing.slowQueries + 1);
      }
      if timing.previous.Some? && v.started - timing.previous.value > 2 * pollInterval {
        timing := timing.(latePolls := timing.latePolls + 1);
      }
      timing := timing.(previous := Some(v.started));
      if !v.error.NoError? {
        if reconnect && v.error.Unavailable? {
          timing := timing.(outages := timing.outages + 1);
        } else if !(expectedCancel && v.error.Canceled?) {
          failed := true;
        }
      }
    }

    // Not everything acknowledged was observed in time.
    method MissDeadline()
      requires Valid()
      modifies this`failed, this`late
      ensures Valid() && failed && late
    {
      failed, late := true, true;
    }

    method RecordRows(found: seq<Row>, finished: int)
      modifies this`rows, this`failed
      ensures rows == WithRows(old(rows), found, finished)
      ensures failed == (old(failed) || !AllUsable(NewRows(old(rows).seen, found)))
    {
      var i := 0;
      while i < |found|
        invariant 0 <= i <= |found|
        invariant rows == WithRows(old(rows), found[..i], finished)
        invariant failed == (old(failed) || !AllUsable(NewRows(old(rows).seen, found[..i])))
      {
        UsableStep(old(rows), found, i, finished);
        RecordRow(found[i], finished);
        i := i + 1;
      }
      assert found[..i] == found;
    }

    method RecordRow(row: Row, finished: int)
      modifies this`rows, this`failed
      ensures rows == WithRow(old(rows), row, finished)
      ensures failed == (old(failed) || (row.id !in old(rows).seen && row.latency < 0))
    {
      if row.id in rows.seen {
        return;
      }
      rows := rows.(seen := rows.seen + {row.id}, observedAt := rows.observedAt[row.id := finished],
                    storedIds := rows.storedIds + [row.id]);
      if row.latency < 0 {
        failed := true;
        return;
      }
      rows := rows.(visibilityNs := rows.visibilityNs + [row.latency]);
    }
  }

  lemma {:induction false} SetOfAppend(ids: seq<Id>, id: Id)
    ensures SetOf(ids + [id]) == SetOf(ids) + {id}
    ensures NoDup(ids) && id !in ids ==> NoDup(ids + [id])
  {
    assert (ids + [id])[..|ids|] == ids;
  }

  lemma {:induction false} WithFirstRow(was: map<Id, int>, rows: seq<Row>, i: nat, t: int)
    requires i < |rows|
    ensures WithFirst(WithFirst(was, RowIds(rows[..i]), t), {rows[i].id}, t) == WithFirst(was, RowIds(rows[..i + 1]), t)
  {
    RowIdsAppend(rows, i);
  }

  lemma {:induction false} RowIdsAppend(rows: seq<Row>, i: nat)
    requires i < |rows|
    ensures RowIds(rows[..i + 1]) == RowIds(rows[..i]) + {rows[i].id}
  {
    assert forall j :: 0 <= j < i ==> rows[..i + 1][j] == rows[..i][j];
    assert rows[..i + 1][i] == rows[i];
  }
}
