/**
  * The end of a measured run: the drain, the error tree, the reconciliation of
  * id sets and the report that is published.
  */
module Reconcile {
  import opened Basics
  import opened Accounting
  import opened Errors
  import Sweep

  // ----- the drain -----

  // The last observation was asked for: some of the ids had not been seen yet
  // and nothing had gone wrong.
  ghost predicate Wanted(reconnect: bool, ids: set<Id>, recorded: seq<PollResult>) {
    UnseenBefore(ids, recorded) && !Troubled(reconnect, recorded[..|recorded| - 1], false)
  }

  // Some of the ids had not been seen before the last observation.
  ghost predicate UnseenBefore(ids: set<Id>, recorded: seq<PollResult>) {
    |recorded| > 0 && !(ids <= SeenIn(recorded[..|recorded| - 1]).seen)
  }

  // After the requests: wait until everything acknowledged or ambiguous was
  // seen, the drain deadline, a failure or the end of the context; then cancel
  // the observer and record what it still delivers. Without a failure every
  // acknowledged id was seen; the deadline was missed only with some of them
  // unseen, and a cancelled last observation is expected only when none was.
  // `polls` are the results the observer has to give, of which `ends` arrive
  // before the context ends and `deadline` before the deadline.
  method Drain(accepted: set<Id>, ambiguous: set<Id>, obs: Observations, polls: seq<PollResult>, cancelled: bool,
               ends: Option<nat>, deadline: nat)
    returns (aborted: bool)
    requires obs.Valid() && !obs.late && !obs.expectedLast
    modifies obs
    ensures obs.Valid() && old(obs.recorded) <= obs.recorded <= old(obs.recorded) + polls
    ensures (cancelled ==> aborted) && (aborted ==> cancelled || ends.Some?)
    ensures !aborted && !obs.failed ==> accepted <= obs.rows.seen
    ensures obs.late ==> !(accepted <= obs.rows.seen) || UnseenBefore(accepted, obs.recorded)
    ensures obs.expectedLast ==> |obs.recorded| > 0 && !UnseenBefore(accepted, obs.recorded)
  {
    var i, missed;
    i, aborted, missed := AwaitRows(accepted, ambiguous, obs, polls, cancelled, ends, deadline);
    if missed {
      obs.MissDeadline();
    }
    RecordLast(accepted, obs, polls, i, aborted, old(obs.recorded));
  }

  method AwaitRows(accepted: set<Id>, ambiguous: set<Id>, obs: Observations, polls: seq<PollResult>, cancelled: bool,
                   ends: Option<nat>, deadline: nat)
    returns (i: nat, aborted: bool, missed: bool)
    requires obs.Valid() && !obs.late && !obs.expectedLast
    modifies obs
    ensures obs.Valid() && !obs.late && !obs.expectedLast && i <= |polls| && obs.recorded == old(obs.recorded) + polls[..i]
    ensures (cancelled ==> aborted) && (aborted ==> cancelled || ends.Some?)
    ensures if missed then !(accepted <= obs.rows.seen) else aborted || obs.failed || accepted <= obs.rows.seen
    ensures i > 0 ==> Wanted(obs.reconnect, accepted + ambiguous, obs.recorded)
  {
    aborted, missed := cancelled, false;
    i := 0;
    while !aborted && !obs.failed && !(accepted + ambiguous <= obs.rows.seen)
      invariant obs.Valid() && !obs.late && !obs.expectedLast && (cancelled ==> aborted) && (aborted ==> cancelled || ends.Some?)
      invariant i <= |polls| && obs.recorded == old(obs.recorded) + polls[..i]
      invariant i > 0 ==> Wanted(obs.reconnect, accepted + ambiguous, obs.recorded)
      decreases |polls| - i, Pending(aborted)
    {
      if ends == Some(i) {
        aborted := true;
      } else if i >= deadline || i == |polls| {
        missed := !(accepted <= obs.rows.seen);
        return;
      } else {
        i := RecordNext(obs, polls, i, old(obs.recorded), false);
      }
    }
  }

  // The observer is cancelled; an observation under way may still be recorded.
  method RecordLast(accepted: set<Id>, obs: Observations, polls: seq<PollResult>, i: nat, aborted: bool, ghost start: seq<PollResult>)
    requires obs.Valid() && !obs.expectedLast && i <= |polls| && obs.recorded == start + polls[..i]
    modifies obs
    ensures obs.Valid() && start <= obs.recorded <= start + polls && old(obs.rows.seen) <= obs.rows.seen
    ensures obs.late == old(obs.late) && (old(obs.failed) ==> obs.failed)
    ensures obs.recorded == old(obs.recorded) || forall ids :: UnseenBefore(ids, obs.recorded) <==> !(ids <= old(obs.rows).seen)
    ensures obs.expectedLast ==> |obs.recorded| > 0 && !UnseenBefore(accepted, obs.recorded)
  {
    var expectedCancel := !aborted && !obs.failed && accepted <= obs.rows.seen;
    var last: bool := *;
    if last && i < |polls| {
      var next := RecordNext(obs, polls, i, start, expectedCancel);
    }
  }

  method RecordNext(obs: Observations, polls: seq<PollResult>, i: nat, ghost before: seq<PollResult>, expectedCancel: bool)
    returns (next: nat)
    requires obs.Valid() && !obs.expectedLast && i < |polls| && obs.recorded == before + polls[..i]
    modifies obs
    ensures obs.Valid() && next == i + 1 && obs.recorded == before + polls[..next]
    ensures obs.late == old(obs.late) && obs.expectedLast == expectedCancel && (old(obs.failed) ==> obs.failed)
    ensures old(obs.rows.seen) <= obs.rows.seen
    ensures |obs.recorded| > 0 && obs.recorded[..|obs.recorded| - 1] == old(obs.recorded)
  {
    ghost var was := obs.recorded;
    obs.Record(polls[i], expectedCancel);
    next := i + 1;
    assert polls[..next] == polls[..i] + [polls[i]];
    assert obs.recorded[..|was|] == was;
  }

  function Pending(aborted: bool): nat {
    if aborted then 0 else 1
  }

  // ----- the report -----

  datatype Status = Complete | Partial | Failed | NotRun

  datatype Load = Met | LimitedLoad | Aborted

  datatype Outcome = OutcomeComplete | OutcomeLimited | OutcomeFailed

  datatype BacklogPoint = BacklogPoint(elapsed: int, accepted: int, pending: int, visible: nat, final: bool)

  // The id lists behind the report, as the capture stores them.
  datatype Sets = Sets(attempted: seq<Id>, accepted: seq<Id>, ambiguous: seq<Id>, stored: seq<Id>)

  // Requests: counts of ids, times and samples.
  datatype Counts = Counts(
    planned: nat, generatorMissed: nat, lateSchedules: nat, attempted: nat, ambiguous: nat, rejected: nat,
    attemptedInWindow: nat, attemptedAfterWindow: nat, acceptedInWindow: nat, acceptedAfterWindow: nat,
    window: int, totalNs: int, drainNs: int, samples: seq<Sample>, ackNs: seq<int>)

  // Delivery: the reconciled id sets.
  datatype Delivery = Delivery(
    accepted: nat, persisted: nat, missing: nat, unexpected: nat, duplicateRows: int, contentMismatch: nat,
    ambiguousUnobserved: int, correct: bool, passed: bool, idSets: (set<Id>, set<Id>, set<Id>, set<Id>))

  // Visibility: what the observer measured.
  datatype Visibility = Visibility(
    ns: seq<int>, count: nat, observed: nat, status: Status, metric: bool, slowQueries: nat, latePolls: nat, outages: nat)

  datatype Report = Report(
    counts: Counts, delivery: Delivery, visibility: Visibility, backlog: seq<BacklogPoint>, backlogAtWindowEnd: nat,
    load: Load, outcome: Outcome)

  // What the final verification query found.
  datatype Verified = Verified(storedIds: seq<Id>, contentMismatch: nat, ok: bool)

  method CountOutside(a: set<Id>, b: set<Id>) returns (n: nat)
    ensures n == |a - b|
  {
    n := 0;
    var todo := a;
    ghost var done: set<Id> := {};
    while todo != {}
      invariant done + todo == a && done !! todo && n == |done - b|
      decreases todo
    {
      var id :| id in todo;
      if id !in b {
        assert (done + {id}) - b == (done - b) + {id};
        n := n + 1;
      } else {
        assert (done + {id}) - b == done - b;
      }
      todo, done := todo - {id}, done + {id};
    }
    assert done == a;
  }

  // The first reconciliation, on what was observed: does it report an error?
  predicate ReconcileFails(accepted: set<Id>, attempted: set<Id>, stored: seq<Id>, contentMismatch: nat, totalNs: int) {
    var rows := SetOf(stored);
    !(accepted <= rows && rows <= attempted + accepted && |stored| == |rows| && contentMismatch == 0 && totalNs > 0)
  }

  // Everything acknowledged was observed, everything observed was sent, no row
  // came twice, and time has passed.
  ghost predicate CleanSample(accepted: seq<Id>, attempted: seq<Id>, stored: seq<Id>, totalNs: int) {
    && (forall id :: id in accepted ==> id in stored)
    && (forall id :: id in stored ==> id in attempted || id in accepted)
    && NoDup(stored) && totalNs > 0
  }

  lemma {:induction false} SetSize(ids: seq<Id>)
    ensures |SetOf(ids)| <= |ids| && (|SetOf(ids)| == |ids| <==> NoDup(ids))
  {
    if |ids| == 0 {
      assert SetOf(ids) == {};
    } else {
      var init, last := ids[..|ids| - 1], ids[|ids| - 1];
      SetSize(init);
      assert ids == init + [last];
      assert SetOf(ids) == SetOf(init) + {last};
    }
  }

  // The first reconciliation reports an error exactly when the sample is not
  // clean or some content differs.
  lemma {:induction false} ReconcileFailsExactly(accepted: seq<Id>, attempted: seq<Id>, stored: seq<Id>, contentMismatch: nat, totalNs: int)
    ensures ReconcileFails(SetOf(accepted), SetOf(attempted), stored, contentMismatch, totalNs) <==>
            !CleanSample(accepted, attempted, stored, totalNs) || contentMismatch > 0
  {
    SetSize(stored);
    assert SetOf(accepted) <= SetOf(stored) <==> forall id :: id in accepted ==> id in stored by {
      forall id | SetOf(accepted) <= SetOf(stored) && id in accepted ensures id in stored {
        assert id in SetOf(accepted);
      }
    }
    assert SetOf(stored) <= SetOf(attempted) + SetOf(accepted) <==> forall id :: id in stored ==> id in attempted || id in accepted by {
      forall id | SetOf(stored) <= SetOf(attempted) + SetOf(accepted) && id in stored ensures id in attempted || id in accepted {
        assert id in SetOf(stored);
      }
    }
  }

  function StatusOf(failed: bool, aborted: bool, waiting: bool): Status {
    if failed || aborted then Failed else if waiting then Partial else Complete
  }

  function LoadOf(aborted: bool, limits: nat): Load {
    if aborted then Aborted else if limits > 0 then LimitedLoad else Met
  }

  // Everything the report is made from.
  datatype Ending = Ending(
    planned: nat, missed: nat, lateSchedules: nat, aborted: bool, sampleNs: int, totalNs: int,
    verified: Verified, closeFailed: bool)

  function ElapsedOf(points: seq<Point>): seq<int> {
    seq(|points|, i requires 0 <= i < |points| => points[i].elapsed)
  }

  lemma {:induction false} RisingPair(points: seq<Point>, i: nat, j: nat)
    requires Rising(points) && i <= j < |points|
    ensures points[i].elapsed <= points[j].elapsed && points[i].visible <= points[j].visible
    decreases |points|
  {
    if i < j {
      var init := points[..|points| - 1];
      if j < |init| {
        RisingPair(init, i, j);
      } else {
        RisingPair(init, i, j - 1);
      }
    }
  }

  lemma {:induction false} RisingIsSorted(points: seq<Point>)
    requires Rising(points)
    ensures Sweep.SortedBy(Sweep.TimeKey(), ElapsedOf(points))
  {
    forall i, j | 0 <= i < j < |points| ensures ElapsedOf(points)[i] <= ElapsedOf(points)[j] {
      RisingPair(points, i, j);
    }
  }

  // The backlog of the sample: observed points with reconstructed counts.
  method SampleBacklog(acceptedAt: map<Id, int>, observedAt: map<Id, int>, points: seq<Point>) returns (backlog: seq<BacklogPoint>)
    requires Rising(points)
    ensures |backlog| == |points|
    ensures forall i :: 0 <= i < |points| ==>
              backlog[i] == BacklogPoint(points[i].elapsed,
                                         |Sweep.AckedBy(acceptedAt.Keys, acceptedAt, points[i].elapsed)|,
                                         |Sweep.PendingAt(acceptedAt.Keys, acceptedAt, observedAt, points[i].elapsed)|,
                                         points[i].visible, false)
  {
    RisingIsSorted(points);
    var timeline := Sweep.Timeline(acceptedAt, observedAt, ElapsedOf(points));
    backlog := seq(|points|, i requires 0 <= i < |points| =>
      BacklogPoint(points[i].elapsed, timeline[i].accepted, timeline[i].pending, points[i].visible, false));
  }

  // ----- what the report says -----

  ghost predicate CountsDescribed(n: Counts, req: Requests, e: Ending)
    reads req
  {
    && n.planned == e.planned && n.generatorMissed == e.missed && n.lateSchedules == e.lateSchedules
    && n.attempted == req.attempts.count && n.ambiguous == req.others.ambiguous && n.rejected == req.others.rejected
    && n.attemptedInWindow == req.attempts.inWindow && n.attemptedAfterWindow == req.attempts.afterWindow
    && n.acceptedInWindow == req.acks.inWindow && n.acceptedAfterWindow == req.acks.afterWindow
    && n.samples == req.attempts.samples && n.ackNs == req.acks.ns
    && n.window == req.window && n.totalNs == e.totalNs
    && n.drainNs == (if e.totalNs < req.window then 0 else e.totalNs - req.window)
  }

  ghost predicate DeliveryDescribed(d: Delivery, req: Requests, e: Ending)
    reads req
  {
    var attempted, accepted, ambiguous, stored :=
      SetOf(req.attempts.ids), SetOf(req.acks.ids), SetOf(req.others.ambiguousIds), SetOf(e.verified.storedIds);
    && d.idSets == (attempted, accepted, ambiguous, stored)
    && d.accepted == |accepted| && d.persisted == |stored|
    && d.missing == |accepted - stored| && d.unexpected == |stored - (attempted + accepted)|
    && d.duplicateRows == |e.verified.storedIds| - |stored| && d.contentMismatch == e.verified.contentMismatch
    && d.ambiguousUnobserved == |ambiguous| - |stored * ambiguous|
    && d.passed == d.correct
    && (d.correct <==>
          d.missing == 0 && d.unexpected == 0 && d.duplicateRows == 0 && d.contentMismatch == 0 && e.totalNs > 0 && e.verified.ok)
  }

  ghost predicate VisibilityDescribed(v: Visibility, req: Requests, obs: Observations, e: Ending)
    reads req, obs
  {
    var waiting := !(req.acks.at.Keys + SetOf(req.others.ambiguousIds) <= obs.rows.seen);
    && v.ns == obs.rows.visibilityNs && v.count == |obs.rows.visibilityNs| && v.observed == |obs.rows.seen|
    && (v.status == Failed <==> e.closeFailed || obs.failed || e.aborted)
    && (v.status == Complete <==> !e.closeFailed && !obs.failed && !e.aborted && !waiting)
    && v.status != NotRun
    && v.metric == (v.status == Complete && |obs.rows.visibilityNs| > 0)
    && v.slowQueries == obs.timing.slowQueries && v.latePolls == obs.timing.latePolls && v.outages == obs.timing.outages
  }

  ghost predicate BacklogDescribed(backlog: seq<BacklogPoint>, d: Delivery, totalNs: int, req: Requests, obs: Observations)
    reads req, obs
  {
    var n := |obs.points|;
    && |backlog| == n + 1
    && (forall i :: 0 <= i < n ==>
          && backlog[i].elapsed == obs.points[i].elapsed && backlog[i].visible == obs.points[i].visible && !backlog[i].final
          && backlog[i].accepted == |Sweep.AckedBy(req.acks.at.Keys, req.acks.at, obs.points[i].elapsed)|
          && backlog[i].pending == |Sweep.PendingAt(req.acks.at.Keys, req.acks.at, obs.rows.observedAt, obs.points[i].elapsed)|)
    && backlog[n] == BacklogPoint(totalNs, d.accepted, d.missing, d.persisted, true)
  }

  function LoadLimits(n: Counts): nat {
    n.generatorMissed + n.lateSchedules + n.rejected + n.ambiguous + n.attemptedAfterWindow + n.acceptedAfterWindow
  }

  predicate Limited(n: Counts, v: Visibility) {
    LoadLimits(n) > 0 || v.latePolls > 0 || v.outages > 0 || v.status == Failed || v.status == Partial || v.slowQueries > 0
  }

  // An error other than a failed observation makes the run a failure.
  ghost predicate Fatal(passed: bool, req: Requests, obs: Observations, e: Ending)
    reads req, obs
  {
    e.aborted || (!obs.failed && !CleanSample(req.acks.ids, req.attempts.ids, obs.rows.storedIds, e.sampleNs)) || !passed
  }

  ghost predicate LabelsDescribed(r: Report, req: Requests, obs: Observations, e: Ending)
    reads req, obs
  {
    && r.load == LoadOf(e.aborted, LoadLimits(r.counts))
    && r.outcome == (if Fatal(r.delivery.passed, req, obs, e) then OutcomeFailed
                     else if Limited(r.counts, r.visibility) then OutcomeLimited else OutcomeComplete)
  }

  ghost predicate Describes(r: Report, req: Requests, obs: Observations, e: Ending)
    reads req, obs
  {
    && CountsDescribed(r.counts, req, e)
    && DeliveryDescribed(r.delivery, req, e)
    && VisibilityDescribed(r.visibility, req, obs, e)
    && BacklogDescribed(r.backlog, r.delivery, e.totalNs, req, obs)
    && r.backlogAtWindowEnd == |Sweep.PendingAt(req.acks.at.Keys, req.acks.at, obs.rows.observedAt, req.window)|
    && LabelsDescribed(r, req, obs, e)
  }

  // Does the run's combined error consist of observation errors only?
  method CombinedError(aborted: bool, obsFailed: bool, sampleFails: bool, closeFailed: bool, delivered: bool) returns (fatal: bool)
    ensures fatal <==> aborted || (!obsFailed && sampleFails) || !delivered
  {
    var none: Option<Err> := None;
    var context := if aborted then Some(Plain) else none;
    var sample := if obsFailed then Some(Observation) else if sampleFails then Some(Plain) else none;
    var sampleErr := Join([context, sample]);
    var closeErr := if closeFailed then Some(Observation) else none;
    var verifyErr := if delivered then none else Some(Plain);
    var result := Join([sampleErr, closeErr, verifyErr]);
    fatal := result.Some? && !ObservationOnly(result.value);
    var inner, outer := [context, sample], [sampleErr, closeErr, verifyErr];
    JoinIsHarmless(inner);
    JoinIsHarmless(outer);
    assert inner[0] == context && inner[1] == sample;
    assert outer[0] == sampleErr && outer[1] == closeErr && outer[2] == verifyErr;
  }

  // The reconciliation of the id sets with the verified rows.
  method ReconcileIds(req: Requests, e: Ending) returns (d: Delivery)
    ensures DeliveryDescribed(d, req, e)
  {
    var attempted, accepted, ambiguous := SetOf(req.attempts.ids), SetOf(req.acks.ids), SetOf(req.others.ambiguousIds);
    var stored := SetOf(e.verified.storedIds);
    var missing := CountOutside(accepted, stored);
    var unexpected := CountOutside(stored, attempted + accepted);
    var unstored := CountOutside(ambiguous, stored);
    assert ambiguous == (ambiguous - stored) + (stored * ambiguous);
    var duplicateRows := |e.verified.storedIds| - |stored|;
    var correct := missing == 0 && unexpected == 0 && duplicateRows == 0 && e.verified.contentMismatch == 0 && e.totalNs > 0;
    var passed := e.verified.ok && correct;
    d := Delivery(|accepted|, |stored|, missing, unexpected, duplicateRows, e.verified.contentMismatch,
                  unstored, passed, passed, (attempted, accepted, ambiguous, stored));
  }

  method CountsPart(req: Requests, e: Ending) returns (n: Counts)
    ensures CountsDescribed(n, req, e)
  {
    n := Counts(
      e.planned, e.missed, e.lateSchedules, req.attempts.count, req.others.ambiguous, req.others.rejected,
      req.attempts.inWindow, req.attempts.afterWindow, req.acks.inWindow, req.acks.afterWindow,
      req.window, e.totalNs, if e.totalNs < req.window then 0 else e.totalNs - req.window, req.attempts.samples, req.acks.ns);
  }

  method ObservationPart(req: Requests, obs: Observations, e: Ending) returns (v: Visibility)
    ensures VisibilityDescribed(v, req, obs, e)
  {
    var waiting := !(req.acks.at.Keys + SetOf(req.others.ambiguousIds) <= obs.rows.seen);
    var status := StatusOf(obs.failed, e.aborted, waiting);
    if e.closeFailed {
      status := Failed;
    }
    v := Visibility(obs.rows.visibilityNs, |obs.rows.visibilityNs|, |obs.rows.seen|, status, status == Complete && |obs.rows.visibilityNs| > 0,
                    obs.timing.slowQueries, obs.timing.latePolls, obs.timing.outages);
  }

  method BacklogPart(req: Requests, obs: Observations, d: Delivery, totalNs: int)
    returns (backlog: seq<BacklogPoint>, atWindowEnd: nat)
    requires obs.Valid() && InOrder(obs.recorded)
    ensures BacklogDescribed(backlog, d, totalNs, req, obs)
    ensures atWindowEnd == |Sweep.PendingAt(req.acks.at.Keys, req.acks.at, obs.rows.observedAt, req.window)|
  {
    PointsRise(obs.recorded);
    atWindowEnd := Sweep.BacklogAt(req.acks.at, obs.rows.observedAt, req.window);
    backlog := SampleBacklog(req.acks.at, obs.rows.observedAt, obs.points);
    backlog := backlog + [BacklogPoint(totalNs, d.accepted, d.missing, d.persisted, true)];
  }

  // The tail of a run: statuses, backlog, both reconciliations, the final
  // verification and the labels.
  method Finish(req: Requests, obs: Observations, e: Ending) returns (r: Report)
    requires req.Valid() && obs.Valid() && InOrder(obs.recorded)
    ensures Describes(r, req, obs, e)
  {
    var sampleFails := ReconcileFails(SetOf(req.acks.ids), SetOf(req.attempts.ids), obs.rows.storedIds, 0, e.sampleNs);
    ReconcileFailsExactly(req.acks.ids, req.attempts.ids, obs.rows.storedIds, 0, e.sampleNs);
    var counts := CountsPart(req, e);
    var visibility := ObservationPart(req, obs, e);
    var delivery := ReconcileIds(req, e);
    var backlog, atWindowEnd := BacklogPart(req, obs, delivery, e.totalNs);
    var fatal := CombinedError(e.aborted, obs.failed, sampleFails, e.closeFailed, delivery.passed);
    var outcome := if fatal then OutcomeFailed else if Limited(counts, visibility) then OutcomeLimited else OutcomeComplete;
    r := Report(counts, delivery, visibility, backlog, atWindowEnd, LoadOf(e.aborted, LoadLimits(counts)), outcome);
  }
}
