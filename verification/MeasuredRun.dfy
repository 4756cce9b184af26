/** From the concurrent request flow to the audited report. */
module MeasuredRun {
  import opened Basics
  import L = LoadDriver
  import O = Observer
  import P = Populations
  import opened Accounting
  import opened Reconcile
  import opened Audit

  // The index of the first id of a job.
  function Offset(c: L.Config, job: nat): nat
    requires c.batch > 0 && job <= |L.Sizes(c.planned, c.batch)|
  {
    L.Sum(L.Sizes(c.planned, c.batch)[..job])
  }

  lemma {:induction false} OffsetNext(c: L.Config, job: nat)
    requires c.Valid() && job < c.jobs
    ensures Offset(c, job + 1) == Offset(c, job) + L.Sizes(c.planned, c.batch)[job]
  {
    L.SumPrefix(L.Sizes(c.planned, c.batch), job);
  }

  lemma {:induction false} OffsetMonotone(c: L.Config, j: nat, k: nat)
    requires c.Valid() && j <= k <= c.jobs
    ensures Offset(c, j) <= Offset(c, k) <= c.planned
    decreases c.jobs - j
  {
    if j < k {
      OffsetNext(c, j);
      OffsetMonotone(c, j + 1, k);
    } else if k < c.jobs {
      OffsetNext(c, k);
      OffsetMonotone(c, k + 1, c.jobs);
      OffsetMonotone(c, k + 1, k + 1);
    } else {
      L.SizesAddUp(c.planned, c.batch);
      assert L.Sizes(c.planned, c.batch)[..c.jobs] == L.Sizes(c.planned, c.batch);
    }
  }

  // The ids of a job: a slice of the planned ids.
  function JobIds(c: L.Config, ids: seq<Id>, job: nat): seq<Id>
    requires c.batch > 0
  {
    if job < |L.Sizes(c.planned, c.batch)| && Offset(c, job) <= Offset(c, job + 1) <= |ids|
    then ids[Offset(c, job)..Offset(c, job + 1)] else []
  }

  function SentOf(c: L.Config, ids: seq<Id>, r: L.Result): Sent
    requires c.batch > 0
  {
    Sent(JobIds(c, ids, r.job), r.accepted, r.ambiguous, r.started, r.finished)
  }

  // What the accounting loop was given, in order.
  function SentList(c: L.Config, ids: seq<Id>, rs: seq<L.Result>): seq<Sent>
    requires c.batch > 0
  {
    seq(|rs|, i requires 0 <= i < |rs| => SentOf(c, ids, rs[i]))
  }

  lemma {:induction false} JobSlice(c: L.Config, ids: seq<Id>, job: nat)
    requires c.Valid() && |ids| == c.planned && job < c.jobs
    ensures Offset(c, job) <= Offset(c, job + 1) <= |ids|
    ensures JobIds(c, ids, job) == ids[Offset(c, job)..Offset(c, job + 1)]
    ensures |JobIds(c, ids, job)| == L.SizeIn(c)(job) && 0 < |JobIds(c, ids, job)| <= c.batch
  {
    OffsetNext(c, job);
    OffsetMonotone(c, job, job + 1);
    OffsetMonotone(c, job + 1, job + 1);
  }

  lemma {:induction false} NoDupIndices(ids: seq<Id>, i: nat, j: nat)
    requires NoDup(ids) && i < j < |ids|
    ensures ids[i] != ids[j]
    decreases |ids|
  {
    if j < |ids| - 1 {
      NoDupIndices(ids[..|ids| - 1], i, j);
    } else {
      assert ids[..|ids| - 1][i] == ids[i];
    }
  }

  lemma {:induction false} NoDupSlice(ids: seq<Id>, i: nat, j: nat)
    requires NoDup(ids) && i <= j <= |ids|
    ensures NoDup(ids[i..j])
  {
    assert ids == ids[..i] + (ids[i..j] + ids[j..]);
    NoDupConcat(ids[..i], ids[i..j] + ids[j..]);
    NoDupConcat(ids[i..j], ids[j..]);
  }

  lemma {:induction false} JobsDisjoint(c: L.Config, ids: seq<Id>, j: nat, k: nat)
    requires c.Valid() && |ids| == c.planned && NoDup(ids) && j < k < c.jobs
    ensures Disjoint(JobIds(c, ids, j), JobIds(c, ids, k))
  {
    JobSlice(c, ids, j);
    JobSlice(c, ids, k);
    OffsetMonotone(c, j + 1, k);
    forall id | id in JobIds(c, ids, j) ensures id !in JobIds(c, ids, k) {
      var x :| Offset(c, j) <= x < Offset(c, j + 1) && ids[x] == id;
      forall y | Offset(c, k) <= y < Offset(c, k + 1) ensures ids[y] != id {
        NoDupIndices(ids, x, y);
      }
    }
  }

  // An id that was attempted belongs to one of the recorded jobs.
  lemma {:induction false} AttemptedJob(c: L.Config, ids: seq<Id>, rs: seq<L.Result>, id: Id)
    requires c.batch > 0 && id in IdsOf(Any, SentList(c, ids, rs))
    ensures exists i :: 0 <= i < |rs| && id in JobIds(c, ids, rs[i].job)
    decreases |rs|
  {
    var init := rs[..|rs| - 1];
    assert SentList(c, ids, rs)[..|rs| - 1] == SentList(c, ids, init);
    if id in IdsOf(Any, SentList(c, ids, init)) {
      AttemptedJob(c, ids, init, id);
      var i :| 0 <= i < |init| && id in JobIds(c, ids, init[i].job);
      assert rs[i] == init[i];
    } else {
      assert id in JobIds(c, ids, rs[|rs| - 1].job);
    }
  }

  lemma {:induction false} JobCountsPositive(rs: seq<L.Result>, k: nat)
    ensures 0 <= L.TotalResults(L.Is(k), rs)
    ensures (exists i :: 0 <= i < |rs| && rs[i].job == k) ==> L.TotalResults(L.Is(k), rs) > 0
  {
    if |rs| > 0 {
      JobCountsPositive(rs[..|rs| - 1], k);
    }
  }

  // No job twice, and all of them planned.
  ghost predicate JobsOnce(c: L.Config, rs: seq<L.Result>) {
    && (forall i :: 0 <= i < |rs| ==> rs[i].job < c.jobs)
    && forall k :: L.TotalResults(L.Is(k), rs) <= 1
  }

  lemma {:induction false} JobsOnceInit(c: L.Config, rs: seq<L.Result>)
    requires JobsOnce(c, rs) && |rs| > 0
    ensures JobsOnce(c, rs[..|rs| - 1])
    ensures forall i :: 0 <= i < |rs| - 1 ==> rs[i].job != rs[|rs| - 1].job
  {
    var init, last := rs[..|rs| - 1], rs[|rs| - 1];
    forall k ensures L.TotalResults(L.Is(k), init) <= 1 {
      assert L.TotalResults(L.Is(k), rs) == L.TotalResults(L.Is(k), init) + L.Is(k)(last.job);
    }
    JobCountsPositive(init, last.job);
    assert L.TotalResults(L.Is(last.job), rs) == L.TotalResults(L.Is(last.job), init) + 1;
    forall i | 0 <= i < |rs| - 1 ensures rs[i].job != last.job {
      assert init[i] == rs[i];
    }
  }

  lemma {:induction false} OtherJob(c: L.Config, ids: seq<Id>, j: nat, k: nat)
    requires c.Valid() && |ids| == c.planned && NoDup(ids) && j < c.jobs && k < c.jobs && j != k
    ensures Disjoint(JobIds(c, ids, j), JobIds(c, ids, k))
  {
    if j < k {
      JobsDisjoint(c, ids, j, k);
    } else {
      JobsDisjoint(c, ids, k, j);
    }
  }

  lemma {:induction false} NewJobIsDisjoint(c: L.Config, ids: seq<Id>, rs: seq<L.Result>, job: nat)
    requires c.Valid() && |ids| == c.planned && NoDup(ids) && job < c.jobs
    requires forall i :: 0 <= i < |rs| ==> rs[i].job < c.jobs && rs[i].job != job
    ensures Disjoint(IdsOf(Any, SentList(c, ids, rs)), JobIds(c, ids, job))
  {
    forall id | id in IdsOf(Any, SentList(c, ids, rs)) ensures id !in JobIds(c, ids, job) {
      AttemptedJob(c, ids, rs, id);
      var i :| 0 <= i < |rs| && id in JobIds(c, ids, rs[i].job);
      OtherJob(c, ids, rs[i].job, job);
    }
  }

  lemma {:induction false} AttemptedSplit(c: L.Config, ids: seq<Id>, rs: seq<L.Result>)
    requires c.batch > 0 && |rs| > 0
    ensures IdsOf(Any, SentList(c, ids, rs))
         == IdsOf(Any, SentList(c, ids, rs[..|rs| - 1])) + JobIds(c, ids, rs[|rs| - 1].job)
  {
    var init, last := rs[..|rs| - 1], rs[|rs| - 1];
    assert SentList(c, ids, rs) == SentList(c, ids, init) + [SentOf(c, ids, last)];
    IdsOfAppend(Any, SentList(c, ids, init), SentOf(c, ids, last));
  }

  lemma {:induction false} DistinctJobsDistinctIds(c: L.Config, ids: seq<Id>, rs: seq<L.Result>)
    requires c.Valid() && |ids| == c.planned && NoDup(ids) && JobsOnce(c, rs)
    ensures NoDup(IdsOf(Any, SentList(c, ids, rs)))
    decreases |rs|
  {
    if |rs| > 0 {
      var init, job := rs[..|rs| - 1], rs[|rs| - 1].job;
      JobsOnceInit(c, rs);
      DistinctJobsDistinctIds(c, ids, init);
      AttemptedSplit(c, ids, rs);
      JobSlice(c, ids, job);
      NoDupSlice(ids, Offset(c, job), Offset(c, job + 1));
      NewJobIsDisjoint(c, ids, init, job);
      NoDupConcat(IdsOf(Any, SentList(c, ids, init)), JobIds(c, ids, job));
    }
  }

  lemma {:induction false} AttemptedSize(c: L.Config, ids: seq<Id>, rs: seq<L.Result>)
    requires c.Valid() && |ids| == c.planned && forall i :: 0 <= i < |rs| ==> rs[i].job < c.jobs
    ensures |IdsOf(Any, SentList(c, ids, rs))| == L.TotalResults(L.SizeIn(c), rs)
    decreases |rs|
  {
    if |rs| > 0 {
      AttemptedSize(c, ids, rs[..|rs| - 1]);
      AttemptedSplit(c, ids, rs);
      JobSlice(c, ids, rs[|rs| - 1].job);
    }
  }

  // When the request flow has ended: every recorded job was planned and was
  // recorded once.
  lemma {:induction false} RecordedOnce(c: L.Config, steps: seq<L.Step>)
    requires c.Valid() && L.Run(c, L.Init(c), steps).Some? && L.Run(c, L.Init(c), steps).value.finished
    ensures JobsOnce(c, L.Run(c, L.Init(c), steps).value.recorded)
  {
    var s := L.Run(c, L.Init(c), steps).value;
    forall k ensures L.TotalResults(L.Is(k), s.recorded) <= 1 {
      L.EverythingIsAccounted(c, steps, k);
      SkippedCountsPositive(s.skipped, k);
    }
    forall i | 0 <= i < |s.recorded| ensures s.recorded[i].job < c.jobs {
      var k := s.recorded[i].job;
      L.EverythingIsAccounted(c, steps, k);
      SkippedCountsPositive(s.skipped, k);
      JobCountsPositive(s.recorded, k);
    }
  }

  lemma {:induction false} SkippedCountsPositive(jobs: seq<nat>, k: nat)
    ensures 0 <= Total(L.Is(k), jobs)
  {
    if |jobs| > 0 {
      SkippedCountsPositive(jobs[..|jobs| - 1], k);
    }
  }

  // The result r is of this kind and its request carried the id.
  predicate Carries(c: L.Config, ids: seq<Id>, kind: Kind, r: L.Result, id: Id)
    requires c.batch > 0
  {
    Is(kind, SentOf(c, ids, r)) && id in JobIds(c, ids, r.job)
  }

  lemma {:induction false} KindLast(c: L.Config, ids: seq<Id>, init: seq<L.Result>, last: L.Result, kind: Kind, id: Id)
    requires c.batch > 0
    ensures id in IdsOf(kind, SentList(c, ids, init + [last])) <==>
            id in IdsOf(kind, SentList(c, ids, init)) || Carries(c, ids, kind, last, id)
  {
    assert SentList(c, ids, init + [last]) == SentList(c, ids, init) + [SentOf(c, ids, last)];
    IdsOfAppend(kind, SentList(c, ids, init), SentOf(c, ids, last));
  }

  lemma {:induction false} KindMember(c: L.Config, ids: seq<Id>, rs: seq<L.Result>, kind: Kind, id: Id)
    requires c.batch > 0
    ensures id in IdsOf(kind, SentList(c, ids, rs)) <==> exists r :: r in rs && Carries(c, ids, kind, r, id)
    decreases |rs|
  {
    if |rs| > 0 {
      var init, last := rs[..|rs| - 1], rs[|rs| - 1];
      assert rs == init + [last];
      KindLast(c, ids, init, last, kind, id);
      KindMember(c, ids, init, kind, id);
      forall r ensures r in rs <==> r in init || r == last {}
    }
  }

  // Some step of the run is a reply of this kind to a request with this id.
  ghost predicate RepliedWith(c: L.Config, steps: seq<L.Step>, ids: seq<Id>, kind: Kind, id: Id)
    requires c.batch > 0
  {
    exists n: nat, r: L.Result :: L.RepliedAt(c, steps, n, r) && Carries(c, ids, kind, r, id)
  }

  // In every interleaving an id is counted as accepted, ambiguous, refused, in
  // the window or after it exactly when a reply of the run says so.
  lemma {:induction false} CountedAreReplies(c: L.Config, steps: seq<L.Step>, ids: seq<Id>, kind: Kind, id: Id)
    requires c.Valid() && L.Run(c, L.Init(c), steps).Some? && L.Run(c, L.Init(c), steps).value.finished
    ensures id in IdsOf(kind, SentList(c, ids, L.Run(c, L.Init(c), steps).value.recorded)) <==> RepliedWith(c, steps, ids, kind, id)
  {
    var rs := L.Run(c, L.Init(c), steps).value.recorded;
    KindMember(c, ids, rs, kind, id);
    L.RepliesAreRecorded(c, steps);
    forall r: L.Result ensures r in rs <==> exists n: nat :: L.RepliedAt(c, steps, n, r) {
      L.RepliesExactly(c, steps, r);
      assert r in rs <==> r in multiset(rs);
      assert r in L.Replies(c, steps) <==> r in multiset(L.Replies(c, steps));
    }
  }

  // The hand-over from the request flow to the accounting: in every
  // interleaving the requests satisfy what the audit needs of them.
  lemma {:induction false} RequestFlowDelivers(c: L.Config, steps: seq<L.Step>, ids: seq<Id>)
    requires c.Valid() && L.Run(c, L.Init(c), steps).Some? && L.Run(c, L.Init(c), steps).value.finished
    requires |ids| == c.planned && NoDup(ids)
    ensures var s := L.Run(c, L.Init(c), steps).value;
            var sent := SentList(c, ids, s.recorded);
            && RequestsOk(sent, c.batch, s.now)
            && c.planned == L.Missed(c, s) + |IdsOf(Any, sent)|
            && (!s.aborted ==> c.window <= s.now)
            && (forall id :: id in IdsOf(AckedEver, sent) <==> RepliedWith(c, steps, ids, AckedEver, id))
            && (forall id :: id in IdsOf(Unclear, sent) <==> RepliedWith(c, steps, ids, Unclear, id))
  {
    var s := L.Run(c, L.Init(c), steps).value;
    var sent := SentList(c, ids, s.recorded);
    forall id ensures id in IdsOf(AckedEver, sent) <==> RepliedWith(c, steps, ids, AckedEver, id) {
      CountedAreReplies(c, steps, ids, AckedEver, id);
    }
    forall id ensures id in IdsOf(Unclear, sent) <==> RepliedWith(c, steps, ids, Unclear, id) {
      CountedAreReplies(c, steps, ids, Unclear, id);
    }
    L.RunInv(c, steps);
    RecordedOnce(c, steps);
    DistinctJobsDistinctIds(c, ids, s.recorded);
    AttemptedSize(c, ids, s.recorded);
    L.EverythingIsAccounted(c, steps, 0);
    forall i | 0 <= i < |sent|
      ensures 0 < |sent[i].ids| <= c.batch && 0 <= sent[i].started <= sent[i].finished <= s.now
      ensures !(sent[i].accepted && sent[i].ambiguous)
    {
      assert L.ResultOk(s.recorded[i], s.now);
      JobSlice(c, ids, s.recorded[i].job);
    }
  }

  // The accounting loop's record of a list of requests.
  method Account(sent: seq<Sent>, window: int) returns (req: Requests)
    ensures fresh(req) && req.Valid() && req.window == window && req.sent == sent
  {
    req := new Requests(window);
    var i := 0;
    while i < |sent|
      invariant 0 <= i <= |sent|
      invariant fresh(req) && req.Valid() && req.window == window && req.sent == sent[..i]
    {
      req.Record(sent[i]);
      assert sent[..i + 1] == sent[..i] + [sent[i]];
      i := i + 1;
    }
    assert sent[..i] == sent;
  }

  // Rows that an observation returned are still there at the final
  // verification.
  ghost predicate RowsStay(polls: seq<PollResult>, stored: set<Id>) {
    forall i :: 0 <= i < |polls| ==> RowIds(polls[i].rows) <= stored
  }

  lemma {:induction false} SeenAreStored(polls: seq<PollResult>, stored: set<Id>)
    requires RowsStay(polls, stored)
    ensures FirstSeen(polls).Keys <= stored
  {
    forall id | id in FirstSeen(polls) ensures id in stored {
      SeenMember(polls, id);
      var i :| 0 <= i < |polls| && id in RowIds(polls[i].rows);
      assert RowIds(polls[i].rows) <= stored;
    }
  }

  // The hand-over from the observer to the accounting: whatever part of its
  // results was recorded is in order and lies within the run.
  lemma {:induction false} ObserverDelivers(watch: seq<O.Step>, recorded: seq<PollResult>, end: int)
    requires O.Run(O.Init(), watch).Some? && O.Run(O.Init(), watch).value.now <= end
    requires recorded <= O.Run(O.Init(), watch).value.polls
    ensures InOrder(recorded) && PollsWithin(recorded, end) && recorded <= O.Answers(watch)
  {
    O.PollsExactly(watch);
    var polls := O.Run(O.Init(), watch).value.polls;
    O.PollsInOrder(watch);
    InOrderPrefix(polls, |recorded|);
    assert recorded == polls[..|recorded|];
    forall i | 0 <= i < |recorded| ensures 0 <= recorded[i].finished <= end {
      assert recorded[i] == polls[i];
    }
  }

  // End to end: whatever the interleaving of scheduler, workers, observer and
  // accounting loop, a run that was not aborted, whose observed rows are still
  // stored, and that is marked correct, passes the independent audit.
  lemma {:induction false} MeasuredRunPassesAudit(
    c: L.Config, steps: seq<L.Step>, watch: seq<O.Step>, ids: seq<Id>, req: Requests, obs: Observations, e: Ending, r: Report)
    requires c.Valid() && L.Run(c, L.Init(c), steps).Some? && L.Run(c, L.Init(c), steps).value.finished
    requires |ids| == c.planned && NoDup(ids)
    requires var s := L.Run(c, L.Init(c), steps).value;
             && req.Valid() && req.window == c.window && req.sent == SentList(c, ids, s.recorded)
             && e.planned == c.planned && e.missed == L.Missed(c, s) && e.aborted == s.aborted == false
             && s.now <= e.totalNs && 0 < e.sampleNs
    requires O.Run(O.Init(), watch).Some? && O.Run(O.Init(), watch).value.now <= e.totalNs
    requires obs.Valid() && obs.recorded <= O.Run(O.Init(), watch).value.polls
    requires RowsStay(obs.recorded, SetOf(e.verified.storedIds))
    requires !obs.failed ==> SetOf(req.acks.ids) <= obs.rows.seen
    requires Describes(r, req, obs, e) && r.delivery.correct
    ensures Passes(r, SetsFor(req, e), c.planned, c.batch)
  {
    RequestFlowDelivers(c, steps, ids);
    ObserverDelivers(watch, obs.recorded, e.totalNs);
    SeenAreStored(obs.recorded, SetOf(e.verified.storedIds));
    SeenMeans(obs.recorded);
    assert RequestsOk(req.sent, c.batch, e.totalNs);
    CorrectRunsPassTheAudit(req, obs, e, r, c.batch);
  }

  // The observations recorded while requests are still running.
  method Observe(polls: seq<PollResult>, pollInterval: int, reconnect: bool) returns (obs: Observations)
    ensures fresh(obs) && obs.Valid() && obs.recorded == polls && obs.pollInterval == pollInterval && obs.reconnect == reconnect
    ensures !obs.late && !obs.expectedLast
  {
    obs := new Observations(pollInterval, reconnect);
    var i := 0;
    while i < |polls|
      invariant fresh(obs) && obs.Valid() && 0 <= i <= |polls| && obs.recorded == [] + polls[..i]
      invariant obs.pollInterval == pollInterval && obs.reconnect == reconnect
      invariant !obs.late && !obs.expectedLast
    {
      i := RecordNext(obs, polls, i, [], false);
    }
    assert polls[..i] == polls;
  }

  // ----- through the capture -----

  // The id lists under the names the capture gives them.
  function Named(sets: Sets): map<string, seq<Id>> {
    map["attempted" := sets.attempted, "accepted" := sets.accepted, "ambiguous" := sets.ambiguous, "stored" := sets.stored]
  }

  predicate Has(g: P.Group, name: string) {
    (g.Explicit? ==> name in g.sets) && (g.Indexed? ==> name in g.indices)
  }

  function ListOf(ids: seq<Id>, g: P.Group, name: string): seq<Id>
    requires Has(g, name)
  {
    match P.Decoded(ids, g, name)
    case Some(list) => list
    case None => []
  }

  // What the auditor reads back from the capture.
  function ReadBack(ids: seq<Id>, g: P.Group): Sets
    requires Has(g, "attempted") && Has(g, "accepted") && Has(g, "ambiguous") && Has(g, "stored")
  {
    Sets(ListOf(ids, g, "attempted"), ListOf(ids, g, "accepted"), ListOf(ids, g, "ambiguous"), ListOf(ids, g, "stored"))
  }

  ghost predicate AllPlanned(list: seq<Id>, ids: seq<Id>) {
    forall i :: 0 <= i < |list| ==> list[i] in ids
  }

  // The lists under their names.
  lemma {:induction false} NamedLists(sets: Sets)
    ensures var m := Named(sets);
            && "attempted" in m && m["attempted"] == sets.attempted && "accepted" in m && m["accepted"] == sets.accepted
            && "ambiguous" in m && m["ambiguous"] == sets.ambiguous && "stored" in m && m["stored"] == sets.stored
  {
    assert "attempted"[1] == 't' && "ambiguous"[1] == 'm' && |"accepted"| == 8 && |"stored"| == 6 && |"attempted"| == |"ambiguous"| == 9;
  }

  lemma {:induction false} ListComesBack(ids: seq<Id>, sets: Sets, g: P.Group, name: string)
    requires P.Encodes(g, ids, Named(sets)) && name in Named(sets) && AllPlanned(Named(sets)[name], ids)
    ensures Has(g, name) && ListOf(ids, g, name) == Named(sets)[name]
  {
    P.RoundTrip(ids, Named(sets), g, name);
  }

  // Only planned ids are ever attempted.
  lemma {:induction false} AttemptedArePlanned(c: L.Config, ids: seq<Id>, rs: seq<L.Result>, list: seq<Id>)
    requires c.batch > 0 && SetOf(list) <= SetOf(IdsOf(Any, SentList(c, ids, rs)))
    ensures AllPlanned(list, ids)
  {
    forall i | 0 <= i < |list| ensures list[i] in ids {
      assert list[i] in SetOf(list);
      AttemptedJob(c, ids, rs, list[i]);
      var k :| 0 <= k < |rs| && list[i] in JobIds(c, ids, rs[k].job);
    }
  }

  lemma {:induction false} EncodedHasAll(ids: seq<Id>, sets: Sets, g: P.Group)
    requires P.Encodes(g, ids, Named(sets))
    ensures Has(g, "attempted") && Has(g, "accepted") && Has(g, "ambiguous") && Has(g, "stored")
  {
    NamedLists(sets);
  }

  // Lists of planned ids survive the capture unchanged.
  lemma {:induction false} PlannedSetsComeBack(ids: seq<Id>, sets: Sets, g: P.Group)
    requires P.Encodes(g, ids, Named(sets))
    requires AllPlanned(sets.attempted, ids) && AllPlanned(sets.accepted, ids)
    requires AllPlanned(sets.ambiguous, ids) && AllPlanned(sets.stored, ids)
    ensures Has(g, "attempted") && Has(g, "accepted") && Has(g, "ambiguous") && Has(g, "stored")
    ensures ReadBack(ids, g) == sets
  {
    NamedLists(sets);
    ListComesBack(ids, sets, g, "attempted");
    ListComesBack(ids, sets, g, "accepted");
    ListComesBack(ids, sets, g, "ambiguous");
    ListComesBack(ids, sets, g, "stored");
  }

  // So do the lists of a run in which everything stored was attempted.
  lemma {:induction false} SetsComeBack(c: L.Config, ids: seq<Id>, rs: seq<L.Result>, sets: Sets, g: P.Group)
    requires c.batch > 0 && P.Encodes(g, ids, Named(sets))
    requires var sent := SentList(c, ids, rs);
             && sets.attempted == IdsOf(Any, sent) && sets.accepted == IdsOf(AckedEver, sent) && sets.ambiguous == IdsOf(Unclear, sent)
             && SetOf(sets.stored) <= SetOf(sets.attempted)
    ensures Has(g, "attempted") && Has(g, "accepted") && Has(g, "ambiguous") && Has(g, "stored")
    ensures ReadBack(ids, g) == sets
  {
    var sent := SentList(c, ids, rs);
    KindIsPart(AckedEver, sent);
    KindIsPart(Unclear, sent);
    AttemptedArePlanned(c, ids, rs, sets.attempted);
    AttemptedArePlanned(c, ids, rs, sets.accepted);
    AttemptedArePlanned(c, ids, rs, sets.ambiguous);
    AttemptedArePlanned(c, ids, rs, sets.stored);
    PlannedSetsComeBack(ids, sets, g);
  }

  lemma {:induction false} StoredWasAttempted(req: Requests, e: Ending, d: Delivery)
    requires req.Valid() && DeliveryDescribed(d, req, e) && d.correct
    ensures SetOf(req.acks.ids) <= SetOf(e.verified.storedIds) <= SetOf(req.attempts.ids)
  {
    EmptyDifference(SetOf(req.acks.ids), SetOf(e.verified.storedIds));
    EmptyDifference(SetOf(e.verified.storedIds), SetOf(req.attempts.ids) + SetOf(req.acks.ids));
    KindIsPart(AckedEver, req.sent);
  }

  // A correct report: every event that some reply acknowledged is stored, and
  // every stored event was sent.
  lemma {:induction false} CorrectLosesNothing(c: L.Config, steps: seq<L.Step>, ids: seq<Id>, req: Requests, e: Ending, d: Delivery)
    requires c.Valid() && L.Run(c, L.Init(c), steps).Some? && L.Run(c, L.Init(c), steps).value.finished
    requires req.Valid() && req.sent == SentList(c, ids, L.Run(c, L.Init(c), steps).value.recorded)
    requires DeliveryDescribed(d, req, e) && d.correct
    ensures forall id :: RepliedWith(c, steps, ids, AckedEver, id) ==> id in e.verified.storedIds
    ensures forall id :: id in e.verified.storedIds ==> RepliedWith(c, steps, ids, Any, id)
  {
    var attempted, accepted, stored := SetOf(req.attempts.ids), SetOf(req.acks.ids), SetOf(e.verified.storedIds);
    StoredWasAttempted(req, e, d);
    forall id | RepliedWith(c, steps, ids, AckedEver, id) ensures id in e.verified.storedIds {
      CountedAreReplies(c, steps, ids, AckedEver, id);
      assert id in accepted && id in stored;
    }
    forall id | id in e.verified.storedIds ensures RepliedWith(c, steps, ids, Any, id) {
      assert id in stored && id in attempted;
      CountedAreReplies(c, steps, ids, Any, id);
    }
  }

  // The driver's part: account for the results, record the observations,
  // drain and publish the report.
  method Measure(
    sent: seq<Sent>, window: int, polls: seq<PollResult>, later: seq<PollResult>, pollInterval: int, reconnect: bool,
    loadAborted: bool, drainEnds: Option<nat>, deadline: nat, ending: Ending) returns (req: Requests, obs: Observations, e: Ending, r: Report)
    requires InOrder(polls + later)
    ensures req.Valid() && req.sent == sent && req.window == window
    ensures obs.Valid() && obs.recorded <= polls + later && e == ending.(aborted := e.aborted)
    ensures (loadAborted ==> e.aborted) && (e.aborted ==> loadAborted || drainEnds.Some?)
    ensures !e.aborted && !obs.failed ==> SetOf(req.acks.ids) <= obs.rows.seen
    ensures Describes(r, req, obs, e) && (r.load == Aborted <==> e.aborted)
  {
    req := Account(sent, window);
    obs := Observe(polls, pollInterval, reconnect);
    var aborted := Drain(SetOf(req.acks.ids), SetOf(req.others.ambiguousIds), obs, later, loadAborted, drainEnds, deadline);
    e := ending.(aborted := aborted);
    InOrderPrefix(polls + later, |obs.recorded|);
    assert obs.recorded == (polls + later)[..|obs.recorded|];
    r := Finish(req, obs, e);
  }

  // The auditor's part: the id lists go through the capture and back before
  // the report is checked against them.
  method CaptureAndAudit(c: L.Config, ids: seq<Id>, ghost rs: seq<L.Result>, req: Requests, e: Ending, r: Report) returns (accepted: bool)
    requires c.batch > 0 && req.Valid() && req.sent == SentList(c, ids, rs)
    ensures SetOf(e.verified.storedIds) <= SetOf(req.attempts.ids) ==>
              (accepted <==> Passes(r, SetsFor(req, e), c.planned, c.batch))
  {
    var group := P.Encode(ids, Named(SetsFor(req, e)), false);
    EncodedHasAll(ids, SetsFor(req, e), group);
    if SetOf(e.verified.storedIds) <= SetOf(req.attempts.ids) {
      SetsComeBack(c, ids, rs, SetsFor(req, e), group);
    }
    accepted := AuditRun(r, ReadBack(ids, group), c.planned, c.batch);
  }

  // A whole measured run, from the finished request flow and the observer's
  // results to the auditor's verdict: account for the results, record the
  // observations, drain, publish the report and the id lists, read the lists
  // back and audit. If the report says correct and the run was not aborted,
  // the auditor accepts it.
  method RunAndAudit(
    c: L.Config, ghost steps: seq<L.Step>, ghost watch: seq<O.Step>, ids: seq<Id>, results: seq<L.Result>,
    missed: nat, lateSchedules: nat, loadAborted: bool, polls: seq<PollResult>, later: seq<PollResult>,
    drainEnds: Option<nat>, deadline: nat, pollInterval: int, reconnect: bool,
    sampleNs: int, totalNs: int, verified: Verified, closeFailed: bool) returns (r: Report, accepted: bool)
    requires c.Valid() && L.Run(c, L.Init(c), steps).Some? && |ids| == c.planned && NoDup(ids)
    requires var s := L.Run(c, L.Init(c), steps).value;
             s.finished && s.aborted == loadAborted && s.recorded == results && L.Missed(c, s) == missed && s.now <= totalNs
    requires O.Run(O.Init(), watch).Some? && O.Run(O.Init(), watch).value.now <= totalNs
    requires O.Run(O.Init(), watch).value.polls == polls + later && RowsStay(polls + later, SetOf(verified.storedIds))
    requires 0 < sampleNs
    ensures r.delivery.correct && r.load != Aborted ==> accepted
    ensures (loadAborted ==> r.load == Aborted) && (r.load == Aborted ==> loadAborted || drainEnds.Some?)
    ensures r.delivery.correct ==> forall id :: RepliedWith(c, steps, ids, AckedEver, id) ==> id in verified.storedIds
    ensures r.delivery.correct ==> forall id :: id in verified.storedIds ==> RepliedWith(c, steps, ids, Any, id)
  {
    ObserverDelivers(watch, polls + later, totalNs);
    var ending := Ending(c.planned, missed, lateSchedules, false, sampleNs, totalNs, verified, closeFailed);
    var req, obs, e;
    req, obs, e, r := Measure(SentList(c, ids, results), c.window, polls, later, pollInterval, reconnect,
                              loadAborted, drainEnds, deadline, ending);
    assert RowsStay(obs.recorded, SetOf(verified.storedIds));
    accepted := CaptureAndAudit(c, ids, results, req, e, r);
    if r.delivery.correct {
      CorrectLosesNothing(c, steps, ids, req, e, r.delivery);
      StoredWasAttempted(req, e, r.delivery);
      if !e.aborted {
        MeasuredRunPassesAudit(c, steps, watch, ids, req, obs, e, r);
      }
    }
  }
}
