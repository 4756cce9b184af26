/** Why an outbox row can be marked rejected: over every run, only because its own request was refused. */
module Rejections {
  import opened Basics
  import opened EventTable
  import opened EndToEnd
  import D = Delivery
  import O = Outbox
  import P = Publisher

  predicate Final(status: Option<nat>) {
    status == Some(400) || status == Some(413)
  }

  // The request with this batch was refused for good: a stage before the
  // handler answered so, or the handler's answer arrived and the body could
  // not be read, was too large, or held an event that fails the checks.
  ghost predicate Refuses(site: Site, batch: seq<Input>, call: Call, transport: P.Transport) {
    || (transport.Refused? && Final(Some(transport.status)))
    || ((transport.Intact? || transport.Garbled?) &&
        (!call.request.Inputs? ||
         exists i :: 0 <= i < |batch| && !site.checks.accepts(Envelope(batch[i], site.tenant, call.received))))
  }

  lemma {:induction false} RefusedExactly(site: Site, batch: seq<Input>, call: Call, read: nat, transport: P.Transport)
    requires call.request.Inputs? ==> call.request.inputs == batch
    requires CallbacksOk(|batch|, call) && read <= |call.callbacks|
    ensures Final(P.StatusOf(AttemptOf(site, call, read, transport))) <==> Refuses(site, batch, call, transport)
  {
    P.CallbacksPrefix(|batch|, call.callbacks, read);
    P.ReplyIsExact(site.checks, call.request, Some(site.tenant), call.received, call.callbacks[..read]);
  }

  // Step n is the answer that refused a request with this event.
  ghost predicate RefusedAt(c: D.Config, site: Site, steps: seq<Step>, n: nat, id: EventId) {
    && n < |steps| && steps[n].Answer? && Run(c, site, Init(c), steps[..n]).Some?
    && var s, w := Run(c, site, Init(c), steps[..n]).value, steps[n].w;
       && w in s.passes && s.passes[w].call.Some? && id in IdsOf(s.passes[w].batch)
       && Refuses(site, s.passes[w].batch, s.passes[w].call.value, steps[n].transport)
  }

  ghost predicate Refused(c: D.Config, site: Site, steps: seq<Step>, id: EventId) {
    exists n: nat :: RefusedAt(c, site, steps, n, id)
  }

  lemma {:induction false} RefusedStays(c: D.Config, site: Site, steps: seq<Step>, id: EventId)
    requires |steps| > 0 && Refused(c, site, steps[..|steps| - 1], id)
    ensures Refused(c, site, steps, id)
  {
    var n: nat :| RefusedAt(c, site, steps[..|steps| - 1], n, id);
    assert steps[..|steps| - 1][..n] == steps[..n];
    assert RefusedAt(c, site, steps, n, id);
  }

  ghost predicate AllRefused(c: D.Config, site: Site, steps: seq<Step>, ids: seq<EventId>) {
    forall i :: 0 <= i < |ids| ==> Refused(c, site, steps, ids[i])
  }

  // A finally refused attempt of a pass was a refusal of all its events.
  ghost predicate AttemptsRefused(c: D.Config, site: Site, steps: seq<Step>, pass: Pass) {
    forall k :: 0 <= k < |pass.attempts| && Final(P.StatusOf(pass.attempts[k])) ==>
      AllRefused(c, site, steps, IdsOf(pass.batch))
  }

  ghost predicate PassesRefused(c: D.Config, site: Site, steps: seq<Step>, passes: map<nat, Pass>) {
    forall w :: w in passes ==> AttemptsRefused(c, site, steps, passes[w])
  }

  ghost predicate RowsRefused(c: D.Config, site: Site, steps: seq<Step>, db: O.Db) {
    forall id :: id in db.outbox && db.outbox[id].state == O.Rejected ==> Refused(c, site, steps, id)
  }

  lemma {:induction false} AllStays(c: D.Config, site: Site, steps: seq<Step>, s: System)
    requires |steps| > 0
    requires PassesRefused(c, site, steps[..|steps| - 1], s.passes) && RowsRefused(c, site, steps[..|steps| - 1], s.db)
    ensures PassesRefused(c, site, steps, s.passes) && RowsRefused(c, site, steps, s.db)
  {
    var init := steps[..|steps| - 1];
    forall id | Refused(c, site, init, id) ensures Refused(c, site, steps, id) {
      RefusedStays(c, site, steps, id);
    }
    forall w | w in s.passes ensures AttemptsRefused(c, site, steps, s.passes[w]) {
      assert AttemptsRefused(c, site, init, s.passes[w]);
    }
  }

  lemma {:induction false} AnswerRefuses(c: D.Config, site: Site, steps: seq<Step>, h: D.Frontier, s: System)
    requires |steps| > 0 && Run(c, site, Init(c), steps[..|steps| - 1]) == Some(s) && Last(steps).Answer?
    requires Inv(c, site.tenant, s, h) && Enabled(c, site, s, Last(steps))
    requires AttemptsRefused(c, site, steps, s.passes[Last(steps).w])
    ensures AttemptsRefused(c, site, steps, PassAfter(site, s.passes[Last(steps).w], Last(steps)))
  {
    var w, read, transport := Last(steps).w, Last(steps).read, Last(steps).transport;
    var pass := s.passes[w];
    assert PassOk(c, site.tenant, s.d, s.db, pass);
    RefusedExactly(site, pass.batch, pass.call.value, read, transport);
    if Refuses(site, pass.batch, pass.call.value, transport) {
      forall i | 0 <= i < |IdsOf(pass.batch)| ensures Refused(c, site, steps, IdsOf(pass.batch)[i]) {
        assert RefusedAt(c, site, steps, |steps| - 1, IdsOf(pass.batch)[i]);
      }
    }
  }

  lemma {:induction false} FinishRejects(c: D.Config, site: Site, steps: seq<Step>, s: System, w: nat)
    requires Enabled(c, site, s, Finish(w)) && AttemptsRefused(c, site, steps, s.passes[w]) && RowsRefused(c, site, steps, s.db)
    ensures RowsRefused(c, site, steps, Finished(site, s.db, s.passes[w]))
  {
    var pass := s.passes[w];
    var ids, report := IdsOf(pass.batch), ReportOf(site, pass).value;
    if O.StateFor(ids, report) == O.Rejected {
      var i := P.DecidedBy(P.LowerAll(ids), site.attempts, pass.attempts);
      assert Final(P.StatusOf(pass.attempts[i]));
    }
    var db := Finished(site, s.db, pass);
    forall id | id in db.outbox && db.outbox[id].state == O.Rejected ensures Refused(c, site, steps, id) {
      O.MarkedAllStates(s.db, ids, O.StateFor(ids, report), O.CodeFor(ids, report), id);
    }
  }

  lemma {:induction false} StepRefuses(c: D.Config, site: Site, steps: seq<Step>, h: D.Frontier, s: System)
    requires |steps| > 0 && Run(c, site, Init(c), steps[..|steps| - 1]) == Some(s)
    requires Inv(c, site.tenant, s, h) && Enabled(c, site, s, Last(steps))
    requires PassesRefused(c, site, steps, s.passes) && RowsRefused(c, site, steps, s.db)
    ensures var t := Next(c, site, s, Last(steps));
            PassesRefused(c, site, steps, t.passes) && RowsRefused(c, site, steps, t.db)
  {
    match Last(steps)
    case CreateOrder(orderId, amount, body) => O.CreatedKeeps(s.db, orderId, amount, body);
    case Select(w, limit) =>
    case Request(w, _, _) => assert AttemptsRefused(c, site, steps, s.passes[w]);
    case Produce(w, _, _) => assert AttemptsRefused(c, site, steps, s.passes[w]);
    case Callback(w, _, _) => assert AttemptsRefused(c, site, steps, s.passes[w]);
    case Buffer(_, _) =>
    case Answer(_, _, _) => AnswerRefuses(c, site, steps, h, s);
    case Finish(w) => FinishRejects(c, site, steps, s, w);
    case Abandon(_) =>
    case Late(_, _) =>
    case Foreign(_, _) =>
    case Worker(_) =>
  }

  lemma {:induction false} RunRefuses(c: D.Config, site: Site, steps: seq<Step>)
    requires c.Valid() && Run(c, site, Init(c), steps).Some?
    ensures var s := Run(c, site, Init(c), steps).value;
            PassesRefused(c, site, steps, s.passes) && RowsRefused(c, site, steps, s.db)
    decreases |steps|
  {
    if |steps| > 0 {
      var init := steps[..|steps| - 1];
      var s := Run(c, site, Init(c), init).value;
      RunRefuses(c, site, init);
      var h := RunKeepsInv(c, site, init);
      AllStays(c, site, steps, s);
      StepRefuses(c, site, steps, h, s);
    }
  }

  // A row is marked rejected only if a request that carried its event was
  // refused for good. Broker trouble, lost answers, time-outs and crashes never
  // make an order's event undeliverable.
  lemma {:induction false} RejectedWasRefused(c: D.Config, site: Site, steps: seq<Step>, id: EventId)
    requires c.Valid() && Run(c, site, Init(c), steps).Some?
    requires var s := Run(c, site, Init(c), steps).value; id in s.db.outbox && s.db.outbox[id].state == O.Rejected
    ensures exists n: nat :: RefusedAt(c, site, steps, n, id)
  {
    RunRefuses(c, site, steps);
    assert Refused(c, site, steps, id);
  }
}
