/** The independent auditor of a measured run, and its agreement with the driver. */
module Audit {
  import opened Basics
  import opened Accounting
  import opened Reconcile
  import Sweep

  // ----- what the auditor requires of a report -----

  predicate SampleIs(kind: Kind, q: Sample) {
    match kind
    case Any => true
    case StartedBy(t) => q.started <= t
    case StartedAfter(t) => q.started > t
    case AckedEver => q.accepted
    case AckedBy(t) => q.accepted && q.finished <= t
    case AckedAfter(t) => q.accepted && q.finished > t
    case Unclear => q.ambiguous
    case Refused => !q.accepted && !q.ambiguous
  }

  // The events of all requests of one kind.
  function Events(kind: Kind, samples: seq<Sample>): nat {
    if |samples| == 0 then 0 else (if SampleIs(kind, samples[0]) then samples[0].events else 0) + Events(kind, samples[1..])
  }

  // Hand the attempted ids out to the requests in order, and keep those of the
  // requests of one kind.
  function Assigned(kind: Kind, samples: seq<Sample>, ids: seq<Id>): seq<Id>
    decreases |samples|
  {
    if |samples| == 0 then []
    else
      var n := Min(samples[0].events, |ids|);
      (if SampleIs(kind, samples[0]) then ids[..n] else []) + Assigned(kind, samples[1..], ids[n..])
  }

  function AckSamples(samples: seq<Sample>): seq<int> {
    if |samples| == 0 then [] else (if samples[0].accepted then [samples[0].elapsed] else []) + AckSamples(samples[1..])
  }

  predicate SampleOk(q: Sample, batchSize: nat) {
    0 < q.events <= batchSize && q.finished >= q.started >= 0 && q.elapsed == q.finished - q.started
  }

  predicate SetChecks(d: Delivery, sets: Sets) {
    var attempted, accepted, ambiguous, stored :=
      SetOf(sets.attempted), SetOf(sets.accepted), SetOf(sets.ambiguous), SetOf(sets.stored);
    && d.correct && d.missing == 0 && d.unexpected == 0 && d.duplicateRows == 0 && d.contentMismatch == 0
    && d.idSets == (attempted, accepted, ambiguous, stored)
    && accepted <= attempted && ambiguous <= attempted && accepted !! ambiguous
    && accepted <= stored && stored <= attempted
    && d.accepted == |sets.accepted| && d.persisted == |sets.stored|
    && d.passed
    && d.ambiguousUnobserved == |ambiguous - stored|
  }

  predicate CountChecks(n: Counts, d: Delivery, sets: Sets, count: nat) {
    && n.planned == count && count == n.attempted + n.generatorMissed
    && n.attempted == |sets.attempted| && n.attempted == d.accepted + n.ambiguous + n.rejected
    && n.totalNs >= n.window && n.drainNs == n.totalNs - n.window
  }

  ghost predicate RequestChecks(n: Counts, sets: Sets, batchSize: nat) {
    && (forall i :: 0 <= i < |n.samples| ==> SampleOk(n.samples[i], batchSize))
    && Events(Any, n.samples) == |sets.attempted|
    && Assigned(AckedEver, n.samples, sets.attempted) == sets.accepted
    && Assigned(Unclear, n.samples, sets.attempted) == sets.ambiguous
  }

  predicate WindowChecks(n: Counts, sets: Sets) {
    var inside, starts := Events(AckedBy(n.window), n.samples), Events(StartedBy(n.window), n.samples);
    && inside == n.acceptedInWindow && starts == n.attemptedInWindow
    && n.acceptedAfterWindow == |sets.accepted| - inside && n.attemptedAfterWindow == |sets.attempted| - starts
    && n.ackNs == AckSamples(n.samples)
    && forall i :: 0 <= i < |n.ackNs| ==> n.ackNs[i] >= 0
  }

  predicate VisibilityChecks(v: Visibility) {
    && v.count == |v.ns| <= v.observed
    && (v.status == Complete ==> |v.ns| == v.observed)
    && (v.status != Complete || |v.ns| == 0 ==> !v.metric)
    && forall i :: 0 <= i < |v.ns| ==> v.ns[i] >= 0
  }

  predicate PointOk(p: BacklogPoint, previousTime: int, previousVisible: int, r: Report) {
    && previousTime <= p.elapsed <= r.counts.totalNs
    && previousVisible <= p.visible <= r.delivery.persisted
    && (if p.final then p.visible == r.delivery.persisted else p.visible <= r.visibility.observed)
    && p.accepted == Events(AckedBy(p.elapsed), r.counts.samples)
  }

  // The walk over the backlog with the previous time and row count.
  predicate BacklogChecks(points: seq<BacklogPoint>, previousTime: int, previousVisible: int, r: Report)
    decreases |points|
  {
    |points| == 0 ||
    (PointOk(points[0], previousTime, previousVisible, r) && BacklogChecks(points[1..], points[0].elapsed, points[0].visible, r))
  }

  predicate LoadLimited(n: Counts) {
    || n.generatorMissed > 0 || n.lateSchedules > 0 || n.rejected > 0 || n.ambiguous > 0
    || n.attemptedAfterWindow > 0 || n.acceptedAfterWindow > 0
  }

  predicate LabelChecks(r: Report) {
    var limited := r.visibility.status == Failed || r.visibility.status == Partial || r.visibility.slowQueries > 0
                   || LoadLimited(r.counts) || r.visibility.latePolls > 0 || r.visibility.outages > 0;
    && r.load == (if LoadLimited(r.counts) then LimitedLoad else Met)
    && r.outcome == (if limited then OutcomeLimited else OutcomeComplete)
  }

  ghost predicate Passes(r: Report, sets: Sets, count: nat, batchSize: nat) {
    && SetChecks(r.delivery, sets)
    && CountChecks(r.counts, r.delivery, sets, count)
    && RequestChecks(r.counts, sets, batchSize)
    && WindowChecks(r.counts, sets)
    && VisibilityChecks(r.visibility)
    && BacklogChecks(r.backlog, 0, 0, r)
    && LabelChecks(r)
  }

  // ----- the auditor -----

  function From(ids: seq<Id>, cursor: nat): seq<Id> {
    ids[Min(cursor, |ids|)..]
  }

  // The ids of the next n events.
  function Part(ids: seq<Id>, cursor: nat, n: nat): seq<Id> {
    ids[Min(cursor, |ids|)..Min(cursor + n, |ids|)]
  }

  // `got` and what the requests from i on still get make up the whole.
  ghost predicate Walked(kind: Kind, got: seq<Id>, samples: seq<Sample>, i: nat, ids: seq<Id>, cursor: nat) {
    i <= |samples| && got + Assigned(kind, samples[i..], From(ids, cursor)) == Assigned(kind, samples, ids)
  }

  lemma {:induction false} FromSplits(ids: seq<Id>, cursor: nat, n: nat)
    ensures var rest, k := From(ids, cursor), Min(n, |From(ids, cursor)|);
            rest[..k] == Part(ids, cursor, n) && rest[k..] == From(ids, cursor + n)
  {
  }

  // The first request takes its part, the others share what is left.
  lemma {:induction false} AssignedHead(kind: Kind, samples: seq<Sample>, ids: seq<Id>,
                                        others: seq<Sample>, part: seq<Id>, left: seq<Id>)
    requires |samples| > 0 && samples[1..] == others
    requires var n := Min(samples[0].events, |ids|); ids[..n] == part && ids[n..] == left
    ensures Assigned(kind, samples, ids) == (if SampleIs(kind, samples[0]) then part else []) + Assigned(kind, others, left)
  {
  }

  lemma {:induction false} AssignedStep(kind: Kind, samples: seq<Sample>, i: nat, ids: seq<Id>, cursor: nat)
    requires i < |samples|
    ensures var n := samples[i].events;
            Assigned(kind, samples[i..], From(ids, cursor))
              == (if SampleIs(kind, samples[i]) then Part(ids, cursor, n) else [])
                 + Assigned(kind, samples[i + 1..], From(ids, cursor + n))
  {
    var n := samples[i].events;
    FromSplits(ids, cursor, n);
    AssignedHead(kind, samples[i..], From(ids, cursor), samples[i + 1..], Part(ids, cursor, n), From(ids, cursor + n));
  }

  lemma {:induction false} Regroup(a: seq<Id>, b: seq<Id>, c: seq<Id>)
    ensures (a + b) + c == a + (b + c) && a + ([] + c) == a + c
  {
  }

  lemma {:induction false} EventsStep(samples: seq<Sample>, i: nat)
    requires i < |samples|
    ensures Events(Any, samples[i..]) == samples[i].events + Events(Any, samples[i + 1..])
  {
    assert samples[i..][0] == samples[i] && samples[i..][1..] == samples[i + 1..];
  }

  lemma {:induction false} WalkEnd(kind: Kind, got: seq<Id>, samples: seq<Sample>, ids: seq<Id>, cursor: nat)
    requires Walked(kind, got, samples, |samples|, ids, cursor)
    ensures got == Assigned(kind, samples, ids)
  {
    assert samples[|samples|..] == [];
  }

  // Where the walk stands before request i.
  ghost predicate WalkState(samples: seq<Sample>, ids: seq<Id>, batchSize: nat, i: nat, cursor: nat,
                            acked: seq<Id>, unknown: seq<Id>)
  {
    && i <= |samples|
    && (forall j :: 0 <= j < i ==> SampleOk(samples[j], batchSize))
    && cursor + Events(Any, samples[i..]) == Events(Any, samples)
    && Walked(AckedEver, acked, samples, i, ids, cursor)
    && Walked(Unclear, unknown, samples, i, ids, cursor)
  }

  lemma {:induction false} WalkStart(samples: seq<Sample>, ids: seq<Id>, batchSize: nat)
    ensures WalkState(samples, ids, batchSize, 0, 0, [], [])
  {
    assert samples[0..] == samples && ids[0..] == ids;
  }

  lemma {:induction false} WalkOn(samples: seq<Sample>, ids: seq<Id>, batchSize: nat, i: nat, cursor: nat,
                                  acked: seq<Id>, unknown: seq<Id>)
    requires i < |samples| && WalkState(samples, ids, batchSize, i, cursor, acked, unknown) && SampleOk(samples[i], batchSize)
    ensures var q := samples[i];
            var part := Part(ids, cursor, q.events);
            WalkState(samples, ids, batchSize, i + 1, cursor + q.events,
                      if q.accepted then acked + part else acked, if q.ambiguous then unknown + part else unknown)
  {
    var n := samples[i].events;
    AssignedStep(AckedEver, samples, i, ids, cursor);
    AssignedStep(Unclear, samples, i, ids, cursor);
    Regroup(acked, Part(ids, cursor, n), Assigned(AckedEver, samples[i + 1..], From(ids, cursor + n)));
    Regroup(unknown, Part(ids, cursor, n), Assigned(Unclear, samples[i + 1..], From(ids, cursor + n)));
    EventsStep(samples, i);
  }

  lemma {:induction false} WalkDone(samples: seq<Sample>, ids: seq<Id>, batchSize: nat, cursor: nat, acked: seq<Id>, unknown: seq<Id>)
    requires WalkState(samples, ids, batchSize, |samples|, cursor, acked, unknown)
    ensures cursor == Events(Any, samples)
    ensures acked == Assigned(AckedEver, samples, ids) && unknown == Assigned(Unclear, samples, ids)
    ensures forall j :: 0 <= j < |samples| ==> SampleOk(samples[j], batchSize)
  {
    WalkEnd(AckedEver, acked, samples, ids, cursor);
    WalkEnd(Unclear, unknown, samples, ids, cursor);
  }

  // The walk over the requests with a cursor into the attempted ids.
  method AuditRequests(n: Counts, sets: Sets, batchSize: nat) returns (ok: bool)
    ensures ok <==> RequestChecks(n, sets, batchSize)
  {
    var ids, samples := sets.attempted, n.samples;
    var cursor: nat, i := 0, 0;
    var acked: seq<Id>, unknown: seq<Id> := [], [];
    WalkStart(samples, ids, batchSize);
    while i < |samples|
      invariant 0 <= i <= |samples|
      invariant WalkState(samples, ids, batchSize, i, cursor, acked, unknown)
    {
      var q := samples[i];
      if !SampleOk(q, batchSize) {
        return false;
      }
      WalkOn(samples, ids, batchSize, i, cursor, acked, unknown);
      var part := Part(ids, cursor, q.events);
      acked := if q.accepted then acked + part else acked;
      unknown := if q.ambiguous then unknown + part else unknown;
      cursor := cursor + q.events;
      i := i + 1;
    }
    WalkDone(samples, ids, batchSize, cursor, acked, unknown);
    ok := cursor == |ids| && acked == sets.accepted && unknown == sets.ambiguous;
  }

  method AuditBacklog(r: Report) returns (ok: bool)
    ensures ok <==> BacklogChecks(r.backlog, 0, 0, r)
  {
    var previousTime, previousVisible, i := 0, 0, 0;
    assert r.backlog[0..] == r.backlog;
    while i < |r.backlog|
      invariant 0 <= i <= |r.backlog|
      invariant BacklogChecks(r.backlog, 0, 0, r) <==> BacklogChecks(r.backlog[i..], previousTime, previousVisible, r)
    {
      var p := r.backlog[i];
      assert r.backlog[i..][0] == p && r.backlog[i..][1..] == r.backlog[i + 1..];
      if !PointOk(p, previousTime, previousVisible, r) {
        return false;
      }
      previousTime, previousVisible := p.elapsed, p.visible;
      i := i + 1;
    }
    ok := true;
  }

  // ----- agreement with the driver -----

  lemma {:induction false} IdsOfHead(kind: Kind, sent: seq<Sent>)
    requires |sent| > 0
    ensures IdsOf(kind, sent) == (if Is(kind, sent[0]) then sent[0].ids else []) + IdsOf(kind, sent[1..])
  {
    if |sent| > 1 {
      var init := sent[..|sent| - 1];
      IdsOfHead(kind, init);
      assert init[1..] == sent[1..][..|sent| - 2];
    } else {
      assert sent[1..] == [] && sent[..0] == [];
    }
  }

  // A request is never both acknowledged and ambiguous.
  ghost predicate FlagsOk(sent: seq<Sent>) {
    forall i :: 0 <= i < |sent| ==> !(sent[i].accepted && sent[i].ambiguous)
  }

  lemma {:induction false} KindsAgree(kind: Kind, v: Sent)
    requires !(v.accepted && v.ambiguous)
    ensures SampleIs(kind, SampleOf(v)) <==> Is(kind, v)
  {
  }

  lemma {:induction false} SamplesTail(sent: seq<Sent>)
    requires |sent| > 0
    ensures SamplesOf(sent)[0] == SampleOf(sent[0]) && SamplesOf(sent)[1..] == SamplesOf(sent[1..])
  {
  }

  // The auditor's sums over samples are the driver's counters.
  lemma {:induction false} EventsAreIds(kind: Kind, sent: seq<Sent>)
    requires FlagsOk(sent)
    ensures Events(kind, SamplesOf(sent)) == |IdsOf(kind, sent)|
    decreases |sent|
  {
    if |sent| > 0 {
      EventsAreIds(kind, sent[1..]);
      SamplesTail(sent);
      KindsAgree(kind, sent[0]);
      IdsOfHead(kind, sent);
    }
  }

  // Handing the attempted ids out again gives every request its own ids.
  lemma {:induction false} AssignedAreIds(kind: Kind, sent: seq<Sent>)
    requires FlagsOk(sent)
    ensures Assigned(kind, SamplesOf(sent), IdsOf(Any, sent)) == IdsOf(kind, sent)
    decreases |sent|
  {
    if |sent| > 0 {
      var rest, ids := sent[1..], IdsOf(Any, sent);
      AssignedAreIds(kind, rest);
      SamplesTail(sent);
      KindsAgree(kind, sent[0]);
      IdsOfHead(kind, sent);
      IdsOfHead(Any, sent);
      var n := |sent[0].ids|;
      assert Min(n, |ids|) == n;
      assert ids[..n] == sent[0].ids && ids[n..] == IdsOf(Any, rest);
    }
  }

  lemma {:induction false} AckSamplesAgree(sent: seq<Sent>)
    ensures AckSamples(SamplesOf(sent)) == AckNsOf(sent)
    decreases |sent|
  {
    if |sent| > 0 {
      AckSamplesAgree(sent[1..]);
      SamplesTail(sent);
      AckNsHead(sent);
    }
  }

  lemma {:induction false} AckNsHead(sent: seq<Sent>)
    requires |sent| > 0
    ensures AckNsOf(sent) == (if sent[0].accepted then [sent[0].finished - sent[0].started] else []) + AckNsOf(sent[1..])
  {
    if |sent| > 1 {
      var init := sent[..|sent| - 1];
      AckNsHead(init);
      assert init[1..] == sent[1..][..|sent| - 2];
    } else {
      assert sent[1..] == [] && sent[..0] == [];
    }
  }

  // ----- what a passed audit means -----

  // A request history behind a report.
  ghost predicate History(sent: seq<Sent>, n: Counts, sets: Sets, batchSize: nat) {
    && FlagsOk(sent)
    && (forall i :: 0 <= i < |sent| ==> 0 < |sent[i].ids| <= batchSize && 0 <= sent[i].started <= sent[i].finished)
    && SamplesOf(sent) == n.samples && AckNsOf(sent) == n.ackNs
    && IdsOf(Any, sent) == sets.attempted && IdsOf(AckedEver, sent) == sets.accepted && IdsOf(Unclear, sent) == sets.ambiguous
  }

  // Id by id: nothing acknowledged is lost, nothing appears from nowhere, and
  // no id is both acknowledged and ambiguous.
  ghost predicate NothingLost(sets: Sets) {
    && (forall id :: id in sets.accepted ==> id in sets.stored && id !in sets.ambiguous)
    && (forall id :: id in sets.stored ==> id in sets.attempted)
  }

  // The delivery part is that of these lists.
  ghost predicate DeliveryHolds(d: Delivery, sets: Sets) {
    && d.correct && d.passed && d.missing == 0 && d.unexpected == 0 && d.duplicateRows == 0 && d.contentMismatch == 0
    && d.idSets == (SetOf(sets.attempted), SetOf(sets.accepted), SetOf(sets.ambiguous), SetOf(sets.stored))
    && d.accepted == |sets.accepted| && d.persisted == |sets.stored|
    && d.ambiguousUnobserved == |SetOf(sets.ambiguous) - SetOf(sets.stored)|
  }

  // The counters are those of the history; of ambiguous and rejected events
  // only the sum is fixed.
  ghost predicate CountsHold(n: Counts, sent: seq<Sent>, count: nat) {
    && n.planned == count == |IdsOf(Any, sent)| + n.generatorMissed && n.attempted == |IdsOf(Any, sent)|
    && n.ambiguous + n.rejected == |IdsOf(Unclear, sent)| + |IdsOf(Refused, sent)|
    && n.attemptedInWindow == |IdsOf(StartedBy(n.window), sent)| && n.attemptedAfterWindow == |IdsOf(StartedAfter(n.window), sent)|
    && n.acceptedInWindow == |IdsOf(AckedBy(n.window), sent)| && n.acceptedAfterWindow == |IdsOf(AckedAfter(n.window), sent)|
    && n.totalNs == n.window + n.drainNs && n.drainNs >= 0
  }

  // Every point counts the ids acknowledged by then; times and rows never fall
  // and stay within the run and the stored rows.
  ghost predicate TimelineHolds(r: Report, sent: seq<Sent>) {
    && (forall j :: 0 <= j < |r.backlog| ==>
          var p := r.backlog[j];
          && p.accepted == |IdsOf(AckedBy(p.elapsed), sent)|
          && 0 <= p.elapsed <= r.counts.totalNs && p.visible <= r.delivery.persisted
          && (if p.final then p.visible == r.delivery.persisted else p.visible <= r.visibility.observed))
    && (forall i, j :: 0 <= i < j < |r.backlog| ==>
          r.backlog[i].elapsed <= r.backlog[j].elapsed && r.backlog[i].visible <= r.backlog[j].visible)
  }

  // The load was met: every planned event was sent and acknowledged within the
  // window, on schedule.
  ghost predicate LoadMet(n: Counts, sent: seq<Sent>, count: nat) {
    && n.lateSchedules == 0 && |IdsOf(Any, sent)| == count
    && forall i :: 0 <= i < |sent| ==> sent[i].accepted && sent[i].started <= n.window && sent[i].finished <= n.window
  }

  predicate CleanlyObserved(v: Visibility) {
    (v.status == Complete || v.status == NotRun) && v.slowQueries == 0 && v.latePolls == 0 && v.outages == 0
  }

  ghost predicate LabelsHold(r: Report, sent: seq<Sent>, count: nat) {
    && r.load == (if LoadMet(r.counts, sent, count) then Met else LimitedLoad)
    && r.outcome == (if LoadMet(r.counts, sent, count) && CleanlyObserved(r.visibility) then OutcomeComplete else OutcomeLimited)
  }

  // Every sample is a duration of an observed id; a complete observation has
  // one for each, and only such a one, not empty, is summed up.
  ghost predicate VisibilityHolds(v: Visibility) {
    && v.count == |v.ns| && v.count <= v.observed && (v.status.Complete? ==> v.count == v.observed)
    && (v.metric ==> v.status.Complete? && v.count > 0) && (forall d :: d in v.ns ==> 0 <= d)
  }

  lemma {:induction false} VisibilityExactly(v: Visibility)
    ensures VisibilityChecks(v) <==> VisibilityHolds(v)
  {
    if VisibilityHolds(v) {
      forall i | 0 <= i < |v.ns| ensures v.ns[i] >= 0 {
        assert v.ns[i] in v.ns;
      }
    }
  }

  ghost predicate Explains(sent: seq<Sent>, r: Report, sets: Sets, count: nat, batchSize: nat) {
    && History(sent, r.counts, sets, batchSize) && NothingLost(sets) && DeliveryHolds(r.delivery, sets)
    && CountsHold(r.counts, sent, count) && TimelineHolds(r, sent) && LabelsHold(r, sent, count)
    && VisibilityHolds(r.visibility)
  }

  // The requests that samples and attempted ids stand for.
  function Rebuilt(samples: seq<Sample>, ids: seq<Id>): seq<Sent>
    decreases |samples|
  {
    if |samples| == 0 then []
    else
      var q := samples[0];
      var n := Min(q.events, |ids|);
      [Sent(ids[..n], q.accepted, q.ambiguous, q.started, q.finished)] + Rebuilt(samples[1..], ids[n..])
  }

  lemma {:induction false} HistoryHead(v: Sent, rest: seq<Sent>, q: Sample, samples: seq<Sample>, ids: seq<Id>)
    requires SampleOf(v) == q && SamplesOf(rest) == samples && IdsOf(Any, rest) == ids
    ensures SamplesOf([v] + rest) == [q] + samples && IdsOf(Any, [v] + rest) == v.ids + ids
  {
    var sent := [v] + rest;
    assert sent[0] == v && sent[1..] == rest;
    IdsOfHead(Any, sent);
    SamplesTail(sent);
    assert SamplesOf(sent) == [SamplesOf(sent)[0]] + SamplesOf(sent)[1..];
  }

  lemma {:induction false} RebuiltHead(samples: seq<Sample>, ids: seq<Id>, batchSize: nat, rest: seq<Sent>)
    requires |samples| > 0 && SampleOk(samples[0], batchSize) && samples[0].events <= |ids|
    requires rest == Rebuilt(samples[1..], ids[samples[0].events..])
    requires SamplesOf(rest) == samples[1..] && IdsOf(Any, rest) == ids[samples[0].events..]
    ensures SamplesOf(Rebuilt(samples, ids)) == samples && IdsOf(Any, Rebuilt(samples, ids)) == ids
  {
    var q, n := samples[0], samples[0].events;
    var v := Sent(ids[..n], q.accepted, q.ambiguous, q.started, q.finished);
    HistoryHead(v, rest, q, samples[1..], ids[n..]);
    assert Rebuilt(samples, ids) == [v] + rest;
    assert samples == [q] + samples[1..] && ids == ids[..n] + ids[n..];
  }

  lemma {:induction false} RebuiltIsHistory(samples: seq<Sample>, ids: seq<Id>, batchSize: nat)
    requires Events(Any, samples) == |ids| && forall i :: 0 <= i < |samples| ==> SampleOk(samples[i], batchSize)
    ensures SamplesOf(Rebuilt(samples, ids)) == samples && IdsOf(Any, Rebuilt(samples, ids)) == ids
    decreases |samples|
  {
    if |samples| > 0 {
      var n, tail := samples[0].events, samples[1..];
      assert Events(Any, samples) == n + Events(Any, tail);
      assert forall i :: 0 <= i < |tail| ==> tail[i] == samples[i + 1];
      RebuiltIsHistory(tail, ids[n..], batchSize);
      RebuiltHead(samples, ids, batchSize, Rebuilt(tail, ids[n..]));
    }
  }

  // A request counted both ways would put its ids into both lists.
  lemma {:induction false} FlagsAreExclusive(samples: seq<Sample>, ids: seq<Id>, batchSize: nat, i: nat)
    requires Events(Any, samples) == |ids| && forall j :: 0 <= j < |samples| ==> SampleOk(samples[j], batchSize)
    requires i < |samples| && samples[i].accepted && samples[i].ambiguous
    ensures exists id :: id in Assigned(AckedEver, samples, ids) && id in Assigned(Unclear, samples, ids)
    decreases |samples|
  {
    var n := samples[0].events;
    var acked, unclear := Assigned(AckedEver, samples[1..], ids[n..]), Assigned(Unclear, samples[1..], ids[n..]);
    if i == 0 {
      assert ids[..n][0] == ids[0] && ids[..n] + acked == Assigned(AckedEver, samples, ids);
      assert ids[0] in Assigned(AckedEver, samples, ids) && ids[0] in Assigned(Unclear, samples, ids);
    } else {
      FlagsAreExclusive(samples[1..], ids[n..], batchSize, i - 1);
      var id :| id in acked && id in unclear;
      assert id in Assigned(AckedEver, samples, ids) && id in Assigned(Unclear, samples, ids);
    }
  }

  // A kind has no ids exactly when no request is of that kind.
  lemma {:induction false} EmptyKind(kind: Kind, sent: seq<Sent>)
    requires forall i :: 0 <= i < |sent| ==> |sent[i].ids| > 0
    ensures |IdsOf(kind, sent)| == 0 <==> forall i :: 0 <= i < |sent| ==> !Is(kind, sent[i])
  {
    if |sent| > 0 {
      EmptyKind(kind, sent[..|sent| - 1]);
    }
  }

  lemma {:induction false} LoadMetExactly(n: Counts, sent: seq<Sent>, count: nat)
    requires CountsHold(n, sent, count) && FlagsOk(sent) && forall i :: 0 <= i < |sent| ==> |sent[i].ids| > 0
    ensures LoadLimited(n) <==> !LoadMet(n, sent, count)
  {
    EmptyKind(Unclear, sent);
    EmptyKind(Refused, sent);
    EmptyKind(StartedAfter(n.window), sent);
    EmptyKind(AckedAfter(n.window), sent);
  }

  // The auditor's sums in terms of a history.
  lemma {:induction false} SumsExactly(n: Counts, d: Delivery, sets: Sets, count: nat, batchSize: nat, sent: seq<Sent>)
    requires History(sent, n, sets, batchSize) && d.accepted == |sets.accepted|
    ensures CountChecks(n, d, sets, count) && WindowChecks(n, sets) <==> CountsHold(n, sent, count)
  {
    EventsAreIds(AckedBy(n.window), sent);
    EventsAreIds(StartedBy(n.window), sent);
    KindsAddUp(sent, n.window);
    AckSamplesAgree(sent);
    AckNsAreDurations(sent);
  }

  lemma {:induction false} AckNsAreDurations(sent: seq<Sent>)
    requires forall i :: 0 <= i < |sent| ==> sent[i].started <= sent[i].finished
    ensures forall i :: 0 <= i < |AckNsOf(sent)| ==> AckNsOf(sent)[i] >= 0
  {
    if |sent| > 0 {
      AckNsAreDurations(sent[..|sent| - 1]);
    }
  }

  lemma {:induction false} SetsExactly(d: Delivery, sets: Sets, sent: seq<Sent>)
    requires IdsOf(Any, sent) == sets.attempted && IdsOf(AckedEver, sent) == sets.accepted && IdsOf(Unclear, sent) == sets.ambiguous
    ensures SetChecks(d, sets) <==> NothingLost(sets) && DeliveryHolds(d, sets)
  {
    KindIsPart(AckedEver, sent);
    KindIsPart(Unclear, sent);
    if NothingLost(sets) {
      forall id | id in SetOf(sets.accepted) ensures id in SetOf(sets.stored) && id !in SetOf(sets.ambiguous) {
        assert id in sets.accepted;
      }
      forall id | id in SetOf(sets.stored) ensures id in SetOf(sets.attempted) {
        assert id in sets.stored;
      }
    }
    if SetChecks(d, sets) {
      forall id | id in sets.accepted ensures id in sets.stored && id !in sets.ambiguous {
        assert id in SetOf(sets.accepted) && id in SetOf(sets.stored);
        assert id !in SetOf(sets.ambiguous);
      }
      forall id | id in sets.stored ensures id in sets.attempted {
        assert id in SetOf(sets.stored) && id in SetOf(sets.attempted);
      }
    }
  }

  function TimeBefore(points: seq<BacklogPoint>, j: nat): int
    requires j <= |points|
  {
    if j == 0 then 0 else points[j - 1].elapsed
  }

  function VisibleBefore(points: seq<BacklogPoint>, j: nat): int
    requires j <= |points|
  {
    if j == 0 then 0 else points[j - 1].visible
  }

  ghost predicate PointPasses(r: Report, j: nat)
    requires j < |r.backlog|
  {
    PointOk(r.backlog[j], TimeBefore(r.backlog, j), VisibleBefore(r.backlog, j), r)
  }

  lemma {:induction false} BacklogFrom(r: Report, i: nat)
    requires i <= |r.backlog| && forall j :: 0 <= j < |r.backlog| ==> PointPasses(r, j)
    ensures BacklogChecks(r.backlog[i..], TimeBefore(r.backlog, i), VisibleBefore(r.backlog, i), r)
    decreases |r.backlog| - i
  {
    if i < |r.backlog| {
      assert r.backlog[i..][0] == r.backlog[i] && r.backlog[i..][1..] == r.backlog[i + 1..];
      assert PointPasses(r, i);
      BacklogFrom(r, i + 1);
    }
  }

  lemma {:induction false} BacklogEach(r: Report, i: nat, j: nat)
    requires i <= j < |r.backlog|
    requires BacklogChecks(r.backlog[i..], TimeBefore(r.backlog, i), VisibleBefore(r.backlog, i), r)
    ensures PointPasses(r, j)
    decreases j - i
  {
    assert r.backlog[i..][0] == r.backlog[i] && r.backlog[i..][1..] == r.backlog[i + 1..];
    if i < j {
      BacklogEach(r, i + 1, j);
    }
  }

  lemma {:induction false} PointsNeverFall(r: Report, i: nat, j: nat)
    requires i <= j < |r.backlog| && forall k :: 0 <= k < |r.backlog| ==> PointPasses(r, k)
    ensures 0 <= r.backlog[i].elapsed <= r.backlog[j].elapsed && r.backlog[i].visible <= r.backlog[j].visible
    decreases j
  {
    assert PointPasses(r, j);
    if i < j {
      PointsNeverFall(r, i, j - 1);
    } else if i > 0 {
      PointsNeverFall(r, i - 1, i - 1);
    }
  }

  // One point, in terms of the history.
  lemma {:induction false} PointMeans(r: Report, sent: seq<Sent>, j: nat)
    requires FlagsOk(sent) && SamplesOf(sent) == r.counts.samples && j < |r.backlog|
    ensures var p := r.backlog[j];
            PointPasses(r, j) <==>
            && p.accepted == |IdsOf(AckedBy(p.elapsed), sent)|
            && TimeBefore(r.backlog, j) <= p.elapsed <= r.counts.totalNs && VisibleBefore(r.backlog, j) <= p.visible <= r.delivery.persisted
            && (if p.final then p.visible == r.delivery.persisted else p.visible <= r.visibility.observed)
  {
    EventsAreIds(AckedBy(r.backlog[j].elapsed), sent);
  }

  lemma {:induction false} CheckedTimelineHolds(r: Report, sent: seq<Sent>)
    requires FlagsOk(sent) && SamplesOf(sent) == r.counts.samples && BacklogChecks(r.backlog, 0, 0, r)
    ensures TimelineHolds(r, sent)
  {
    assert r.backlog[0..] == r.backlog;
    forall j | 0 <= j < |r.backlog| ensures PointPasses(r, j) {
      BacklogEach(r, 0, j);
    }
    forall j | 0 <= j < |r.backlog|
      ensures var p := r.backlog[j];
              && p.accepted == |IdsOf(AckedBy(p.elapsed), sent)|
              && 0 <= p.elapsed <= r.counts.totalNs && p.visible <= r.delivery.persisted
              && (if p.final then p.visible == r.delivery.persisted else p.visible <= r.visibility.observed)
    {
      PointMeans(r, sent, j);
      PointsNeverFall(r, j, j);
    }
    forall i, j | 0 <= i < j < |r.backlog|
      ensures r.backlog[i].elapsed <= r.backlog[j].elapsed && r.backlog[i].visible <= r.backlog[j].visible
    {
      PointsNeverFall(r, i, j);
    }
  }

  lemma {:induction false} TimelineExactly(r: Report, sent: seq<Sent>)
    requires FlagsOk(sent) && SamplesOf(sent) == r.counts.samples
    ensures BacklogChecks(r.backlog, 0, 0, r) <==> TimelineHolds(r, sent)
  {
    if BacklogChecks(r.backlog, 0, 0, r) {
      CheckedTimelineHolds(r, sent);
    }
    if TimelineHolds(r, sent) {
      forall j | 0 <= j < |r.backlog| ensures PointPasses(r, j) {
        PointMeans(r, sent, j);
      }
      BacklogFrom(r, 0);
      assert r.backlog[0..] == r.backlog;
    }
  }

  lemma {:induction false} RequestsAreHistory(n: Counts, sets: Sets, batchSize: nat) returns (sent: seq<Sent>)
    requires RequestChecks(n, sets, batchSize) && n.ackNs == AckSamples(n.samples)
    requires SetOf(sets.accepted) !! SetOf(sets.ambiguous)
    ensures History(sent, n, sets, batchSize)
  {
    sent := Rebuilt(n.samples, sets.attempted);
    RebuiltIsHistory(n.samples, sets.attempted, batchSize);
    forall id | id in sets.accepted ensures id !in sets.ambiguous {
      assert id in SetOf(sets.accepted) && id !in SetOf(sets.ambiguous);
    }
    forall i | 0 <= i < |sent| ensures !(sent[i].accepted && sent[i].ambiguous) {
      assert SamplesOf(sent)[i] == SampleOf(sent[i]);
      if sent[i].accepted && sent[i].ambiguous {
        FlagsAreExclusive(n.samples, sets.attempted, batchSize, i);
        assert false;
      }
    }
    AssignedAreIds(AckedEver, sent);
    AssignedAreIds(Unclear, sent);
    AckSamplesAgree(sent);
    forall i | 0 <= i < |sent| ensures 0 < |sent[i].ids| <= batchSize && 0 <= sent[i].started <= sent[i].finished {
      assert SamplesOf(sent)[i] == SampleOf(sent[i]) && SampleOk(n.samples[i], batchSize);
    }
  }

  lemma {:induction false} HistoryPasses(sent: seq<Sent>, n: Counts, sets: Sets, batchSize: nat)
    requires History(sent, n, sets, batchSize)
    ensures RequestChecks(n, sets, batchSize)
  {
    EventsAreIds(Any, sent);
    AssignedAreIds(AckedEver, sent);
    AssignedAreIds(Unclear, sent);
    forall i | 0 <= i < |n.samples| ensures SampleOk(n.samples[i], batchSize) {
      assert n.samples[i] == SampleOf(sent[i]);
    }
  }

  lemma {:induction false} LabelsExactly(r: Report, sent: seq<Sent>, count: nat)
    requires CountsHold(r.counts, sent, count) && FlagsOk(sent) && forall i :: 0 <= i < |sent| ==> |sent[i].ids| > 0
    ensures LabelChecks(r) <==> LabelsHold(r, sent, count)
  {
    LoadMetExactly(r.counts, sent, count);
  }

  lemma {:induction false} PassedIsExplained(r: Report, sets: Sets, count: nat, batchSize: nat) returns (sent: seq<Sent>)
    requires Passes(r, sets, count, batchSize)
    ensures Explains(sent, r, sets, count, batchSize)
  {
    sent := RequestsAreHistory(r.counts, sets, batchSize);
    VisibilityExactly(r.visibility);
    SetsExactly(r.delivery, sets, sent);
    SumsExactly(r.counts, r.delivery, sets, count, batchSize, sent);
    TimelineExactly(r, sent);
    LabelsExactly(r, sent, count);
  }

  lemma {:induction false} ExplainedPasses(sent: seq<Sent>, r: Report, sets: Sets, count: nat, batchSize: nat)
    requires Explains(sent, r, sets, count, batchSize)
    ensures Passes(r, sets, count, batchSize)
  {
    HistoryPasses(sent, r.counts, sets, batchSize);
    VisibilityExactly(r.visibility);
    SetsExactly(r.delivery, sets, sent);
    SumsExactly(r.counts, r.delivery, sets, count, batchSize, sent);
    TimelineExactly(r, sent);
    LabelsExactly(r, sent, count);
  }

  // The auditor accepts exactly the reports behind which there is a history of
  // requests that explains lists, counts, timeline and labels, and in which
  // nothing acknowledged is lost.
  lemma {:induction false} AuditIsExact(r: Report, sets: Sets, count: nat, batchSize: nat)
    ensures Passes(r, sets, count, batchSize) <==> exists sent :: Explains(sent, r, sets, count, batchSize)
  {
    if Passes(r, sets, count, batchSize) {
      var sent := PassedIsExplained(r, sets, count, batchSize);
    } else if exists sent :: Explains(sent, r, sets, count, batchSize) {
      var sent :| Explains(sent, r, sets, count, batchSize);
      ExplainedPasses(sent, r, sets, count, batchSize);
    }
  }

  method AuditRun(r: Report, sets: Sets, count: nat, batchSize: nat) returns (ok: bool)
    ensures ok <==> Passes(r, sets, count, batchSize)
    ensures ok <==> exists sent :: Explains(sent, r, sets, count, batchSize)
    ensures ok ==> forall id :: id in sets.accepted ==> id in sets.stored && id !in sets.ambiguous
    ensures ok ==> forall id :: id in sets.stored ==> id in sets.attempted
  {
    AuditIsExact(r, sets, count, batchSize);
    ok := SetChecks(r.delivery, sets) && CountChecks(r.counts, r.delivery, sets, count)
          && WindowChecks(r.counts, sets) && VisibilityChecks(r.visibility) && LabelChecks(r);
    var requests := AuditRequests(r.counts, sets, batchSize);
    var backlog := AuditBacklog(r);
    ok := ok && requests && backlog;
  }

  // Every kind is a part of all ids; without repetition so is each part.
  lemma {:induction false} KindIsPart(kind: Kind, sent: seq<Sent>)
    ensures SetOf(IdsOf(kind, sent)) <= SetOf(IdsOf(Any, sent))
    ensures NoDup(IdsOf(Any, sent)) ==> NoDup(IdsOf(kind, sent))
  {
    if |sent| > 0 {
      var init, v := sent[..|sent| - 1], sent[|sent| - 1];
      KindIsPart(kind, init);
      NoDupConcat(IdsOf(Any, init), v.ids);
      if Is(kind, v) {
        NoDupConcat(IdsOf(kind, init), v.ids);
        forall id | id in IdsOf(kind, init) ensures id in IdsOf(Any, init) {
          assert id in SetOf(IdsOf(kind, init));
        }
      } else {
        assert IdsOf(kind, init) + [] == IdsOf(kind, init);
      }
    }
  }

  lemma {:induction false} AckedAndUnclear(sent: seq<Sent>)
    requires NoDup(IdsOf(Any, sent))
    ensures SetOf(IdsOf(AckedEver, sent)) !! SetOf(IdsOf(Unclear, sent))
  {
    if |sent| > 0 {
      var init, v := sent[..|sent| - 1], sent[|sent| - 1];
      NoDupConcat(IdsOf(Any, init), v.ids);
      AckedAndUnclear(init);
      KindIsPart(AckedEver, init);
      KindIsPart(Unclear, init);
      forall id | id in IdsOf(AckedEver, sent) ensures id !in IdsOf(Unclear, sent) {
        assert id in SetOf(IdsOf(AckedEver, init)) || id in v.ids;
        assert id in IdsOf(Unclear, init) ==> id in SetOf(IdsOf(Unclear, init));
      }
    }
  }

  lemma {:induction false} StampMeaning(m: map<Id, int>, ids: seq<Id>, t: int)
    ensures Stamp(m, ids, t).Keys == m.Keys + SetOf(ids)
    ensures forall id :: id in Stamp(m, ids, t) ==> Stamp(m, ids, t)[id] == if id in ids then t else m[id]
  {
    if |ids| > 0 {
      var init, last := ids[..|ids| - 1], ids[|ids| - 1];
      StampMeaning(m, init, t);
      assert ids == init + [last];
    } else {
      assert SetOf(ids) == {};
    }
  }

  // The acknowledgement times cover the accepted ids, each with the time of
  // its own request.
  lemma {:induction false} AckTimesMeaning(sent: seq<Sent>, t: int)
    requires NoDup(IdsOf(Any, sent))
    ensures AckTimes(sent).Keys == SetOf(IdsOf(AckedEver, sent))
    ensures forall id :: (id in AckTimes(sent) && AckTimes(sent)[id] <= t) <==> id in IdsOf(AckedBy(t), sent)
  {
    if |sent| > 0 {
      var init, v := sent[..|sent| - 1], sent[|sent| - 1];
      NoDupConcat(IdsOf(Any, init), v.ids);
      AckTimesMeaning(init, t);
      StampMeaning(AckTimes(init), v.ids, v.finished);
      KindIsPart(AckedEver, init);
      KindIsPart(AckedBy(t), init);
      forall id | id in v.ids ensures id !in IdsOf(AckedBy(t), init) && id !in AckTimes(init) {
        assert id in IdsOf(AckedBy(t), init) ==> id in SetOf(IdsOf(AckedBy(t), init));
        assert id in AckTimes(init) ==> id in SetOf(IdsOf(AckedEver, init));
        assert id !in SetOf(IdsOf(Any, init));
      }
    }
  }

  // The reconstructed backlog counts are sums over the request samples.
  lemma {:induction false} AckCount(sent: seq<Sent>, t: int)
    requires NoDup(IdsOf(Any, sent)) && FlagsOk(sent)
    ensures var acked := AckTimes(sent); |Sweep.AckedBy(acked.Keys, acked, t)| == Events(AckedBy(t), SamplesOf(sent))
  {
    var acked := AckTimes(sent);
    AckTimesMeaning(sent, t);
    assert Sweep.AckedBy(acked.Keys, acked, t) == SetOf(IdsOf(AckedBy(t), sent));
    KindIsPart(AckedBy(t), sent);
    NoDupSize(IdsOf(AckedBy(t), sent));
    EventsAreIds(AckedBy(t), sent);
  }

  // What the request flow guarantees at the end of a run.
  ghost predicate RequestsOk(sent: seq<Sent>, batchSize: nat, end: int) {
    && NoDup(IdsOf(Any, sent)) && FlagsOk(sent)
    && forall i :: 0 <= i < |sent| ==> 0 < |sent[i].ids| <= batchSize && 0 <= sent[i].started <= sent[i].finished <= end
  }

  ghost predicate PollsWithin(polls: seq<PollResult>, end: int) {
    forall i :: 0 <= i < |polls| ==> 0 <= polls[i].finished <= end
  }

  // What a run that was not aborted guarantees at its end: every planned id
  // was missed or attempted, time went past the window, observations lie
  // within the run, observed rows are still there at the final verification,
  // and without an observation failure all acknowledged ids were seen.
  ghost predicate EndedWell(req: Requests, obs: Observations, e: Ending, batchSize: nat)
    reads req, obs
  {
    && RequestsOk(req.sent, batchSize, e.totalNs)
    && e.planned == e.missed + |IdsOf(Any, req.sent)|
    && !e.aborted && 0 < req.window <= e.totalNs && 0 < e.sampleNs
    && InOrder(obs.recorded) && PollsWithin(obs.recorded, e.totalNs)
    && obs.rows.seen <= SetOf(e.verified.storedIds)
    && (!obs.failed ==> SetOf(req.acks.ids) <= obs.rows.seen)
  }

  function SetsFor(req: Requests, e: Ending): Sets
    reads req
  {
    Sets(req.attempts.ids, req.acks.ids, req.others.ambiguousIds, e.verified.storedIds)
  }

  lemma {:induction false} EmptyDifference(a: set<Id>, b: set<Id>)
    requires |a - b| == 0
    ensures a <= b
  {
    assert a == (a - b) + (a * b);
  }

  // The set relations, from the reconciliation of distinct requests.
  lemma {:induction false} SetsPass(attempted: set<Id>, accepted: set<Id>, ambiguous: set<Id>, stored: set<Id>)
    requires accepted <= attempted && |accepted - stored| == 0 && |stored - (attempted + accepted)| == 0
    ensures accepted <= stored <= attempted
    ensures |ambiguous| - |stored * ambiguous| == |ambiguous - stored|
  {
    EmptyDifference(accepted, stored);
    EmptyDifference(stored, attempted + accepted);
    assert attempted + accepted == attempted;
    assert ambiguous == (ambiguous - stored) + (stored * ambiguous);
  }

  lemma {:induction false} DeliveryPasses(req: Requests, e: Ending, d: Delivery)
    requires req.Valid() && DeliveryDescribed(d, req, e) && NoDup(IdsOf(Any, req.sent)) && d.correct
    ensures SetChecks(d, SetsFor(req, e))
  {
    KindIsPart(AckedEver, req.sent);
    KindIsPart(Unclear, req.sent);
    AckedAndUnclear(req.sent);
    SetsPass(SetOf(req.attempts.ids), SetOf(req.acks.ids), SetOf(req.others.ambiguousIds), SetOf(e.verified.storedIds));
    NoDupSize(req.acks.ids);
  }

  lemma {:induction false} CountsPass(req: Requests, e: Ending, n: Counts, d: Delivery)
    requires req.Valid() && CountsDescribed(n, req, e) && DeliveryDescribed(d, req, e) && NoDup(IdsOf(Any, req.sent))
    requires e.planned == e.missed + |IdsOf(Any, req.sent)| && req.window <= e.totalNs
    ensures CountChecks(n, d, SetsFor(req, e), e.planned)
  {
    KindIsPart(AckedEver, req.sent);
    NoDupSize(req.acks.ids);
    KindsAddUp(req.sent, req.window);
  }

  lemma {:induction false} RequestsPass(req: Requests, e: Ending, n: Counts, batchSize: nat)
    requires req.Valid() && CountsDescribed(n, req, e) && RequestsOk(req.sent, batchSize, e.totalNs)
    ensures RequestChecks(n, SetsFor(req, e), batchSize)
    ensures WindowChecks(n, SetsFor(req, e))
  {
    var sent := req.sent;
    EventsAreIds(Any, sent);
    AssignedAreIds(AckedEver, sent);
    AssignedAreIds(Unclear, sent);
    EventsAreIds(AckedBy(req.window), sent);
    EventsAreIds(StartedBy(req.window), sent);
    KindsAddUp(sent, req.window);
    AckSamplesAgree(sent);
    AckNsNonNegative(sent, e.totalNs);
  }

  lemma {:induction false} AckNsNonNegative(sent: seq<Sent>, end: int)
    requires forall i :: 0 <= i < |sent| ==> 0 <= sent[i].started <= sent[i].finished <= end
    ensures forall i :: 0 <= i < |AckNsOf(sent)| ==> AckNsOf(sent)[i] >= 0
  {
    if |sent| > 0 {
      AckNsNonNegative(sent[..|sent| - 1], end);
    }
  }

  // "Complete" means one latency sample for every observed id.
  lemma {:induction false} VisibilityPasses(req: Requests, obs: Observations, e: Ending, v: Visibility)
    requires obs.Valid() && VisibilityDescribed(v, req, obs, e)
    ensures VisibilityChecks(v)
  {
    if !obs.failed {
      UntroubledIsUsable(obs.reconnect, obs.recorded, obs.expectedLast);
    }
    LatenciesCount(FirstRows(obs.recorded));
    SeenMeans(obs.recorded);
    NoDupSize(obs.rows.storedIds);
  }

  // Observed points lie within the run and count rows that are still stored.
  ghost predicate PointsOk(points: seq<Point>, seen: nat, stored: nat, end: int) {
    && Rising(points) && LastVisible(points) <= seen <= stored
    && (|points| > 0 ==> 0 <= points[0].elapsed && LastElapsed(points) <= end)
  }

  lemma {:induction false} PointInRange(points: seq<Point>, seen: nat, stored: nat, end: int, j: nat)
    requires PointsOk(points, seen, stored, end) && j < |points|
    ensures (if j == 0 then 0 else points[j - 1].elapsed) <= points[j].elapsed <= end
    ensures (if j == 0 then 0 else points[j - 1].visible) <= points[j].visible <= seen <= stored
  {
    RisingPair(points, j, |points| - 1);
    if j > 0 {
      RisingPair(points, j - 1, j);
    }
  }

  ghost predicate BacklogContext(req: Requests, obs: Observations, e: Ending, r: Report)
    reads req, obs
  {
    && BacklogDescribed(r.backlog, r.delivery, e.totalNs, req, obs)
    && r.counts.samples == SamplesOf(req.sent) && r.counts.totalNs == e.totalNs && req.acks.at == AckTimes(req.sent)
    && r.visibility.observed == |obs.rows.seen|
    && r.delivery.accepted == |IdsOf(AckedEver, req.sent)|
    && NoDup(IdsOf(Any, req.sent)) && FlagsOk(req.sent)
    && (forall i :: 0 <= i < |req.sent| ==> req.sent[i].finished <= e.totalNs)
    && 0 <= e.totalNs && PointsOk(obs.points, |obs.rows.seen|, r.delivery.persisted, e.totalNs)
  }

  lemma {:induction false} ObservedPointPasses(req: Requests, obs: Observations, e: Ending, r: Report, j: nat)
    requires BacklogContext(req, obs, e, r) && j < |obs.points|
    ensures PointPasses(r, j)
  {
    PointInRange(obs.points, |obs.rows.seen|, r.delivery.persisted, e.totalNs, j);
    AckCount(req.sent, obs.points[j].elapsed);
  }

  lemma {:induction false} AllAckedByEnd(sent: seq<Sent>, end: int)
    requires forall i :: 0 <= i < |sent| ==> sent[i].finished <= end
    ensures IdsOf(AckedBy(end), sent) == IdsOf(AckedEver, sent)
  {
    if |sent| > 0 {
      AllAckedByEnd(sent[..|sent| - 1], end);
    }
  }

  lemma {:induction false} FinalPointPasses(req: Requests, obs: Observations, e: Ending, r: Report)
    requires BacklogContext(req, obs, e, r)
    ensures PointPasses(r, |obs.points|)
  {
    AllAckedByEnd(req.sent, e.totalNs);
    EventsAreIds(AckedBy(e.totalNs), req.sent);
    if |obs.points| > 0 {
      PointInRange(obs.points, |obs.rows.seen|, r.delivery.persisted, e.totalNs, |obs.points| - 1);
    }
  }

  lemma {:induction false} BacklogPasses(req: Requests, obs: Observations, e: Ending, r: Report)
    requires BacklogContext(req, obs, e, r)
    ensures BacklogChecks(r.backlog, 0, 0, r)
  {
    forall j | 0 <= j < |r.backlog| ensures PointPasses(r, j) {
      if j < |obs.points| {
        ObservedPointPasses(req, obs, e, r, j);
      } else {
        FinalPointPasses(req, obs, e, r);
      }
    }
    BacklogFrom(r, 0);
    assert r.backlog[0..] == r.backlog;
  }

  lemma {:induction false} InBacklogContext(req: Requests, obs: Observations, e: Ending, r: Report, batchSize: nat)
    requires req.Valid() && obs.Valid() && Describes(r, req, obs, e) && EndedWell(req, obs, e, batchSize)
    ensures BacklogContext(req, obs, e, r)
  {
    KindIsPart(AckedEver, req.sent);
    NoDupSize(req.acks.ids);
    SeenMeans(obs.recorded);
    SubsetSize(obs.rows.seen, SetOf(e.verified.storedIds));
    PointsRise(obs.recorded);
    if |obs.recorded| > 0 {
      PointsAt(obs.recorded, 0);
    }
  }

  // A correct run is never labelled as a failure for lack of a clean first
  // reconciliation: everything acknowledged was seen, and what was seen is stored.
  lemma {:induction false} NotFatal(req: Requests, obs: Observations, e: Ending)
    requires obs.Valid() && !e.aborted && 0 < e.sampleNs && obs.rows.seen <= SetOf(req.attempts.ids)
    requires !obs.failed ==> SetOf(req.acks.ids) <= obs.rows.seen
    ensures !Fatal(true, req, obs, e)
  {
    SeenMeans(obs.recorded);
    NoDupSize(obs.rows.storedIds);
    ReconcileFailsExactly(req.acks.ids, req.attempts.ids, obs.rows.storedIds, 0, e.sampleNs);
  }

  lemma {:induction false} LabelsPass(req: Requests, obs: Observations, e: Ending, r: Report)
    requires LabelsDescribed(r, req, obs, e) && !e.aborted && !Fatal(r.delivery.passed, req, obs, e)
    ensures LabelChecks(r)
  {
  }

  // Every run that was not aborted and that the driver marks correct passes
  // the auditor's checks.
  lemma {:induction false} CorrectRunsPassTheAudit(req: Requests, obs: Observations, e: Ending, r: Report, batchSize: nat)
    requires req.Valid() && obs.Valid() && Describes(r, req, obs, e) && EndedWell(req, obs, e, batchSize)
    requires r.delivery.correct
    ensures Passes(r, SetsFor(req, e), e.planned, batchSize)
  {
    DeliveryPasses(req, e, r.delivery);
    CountsPass(req, e, r.counts, r.delivery);
    RequestsPass(req, e, r.counts, batchSize);
    VisibilityPasses(req, obs, e, r.visibility);
    InBacklogContext(req, obs, e, r, batchSize);
    BacklogPasses(req, obs, e, r);
    NotFatal(req, obs, e);
    LabelsPass(req, obs, e, r);
  }
}
