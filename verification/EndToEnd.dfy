/** From a saved order to a stored row: the outbox, the client, the API's publishes and the delivery protocol together. */
module EndToEnd {
  import opened Basics
  import opened EventTable
  import opened ReaderPlan
  import D = Delivery
  import O = Outbox
  import P = Publisher
  import R = Recovery

  // The tenant selected by the dispatcher's API key, the checks of the API and
  // the client's number of attempts.
  datatype Site = Site(tenant: string, checks: P.Checks, attempts: nat)

  // The HTTP request under way: what the API made of its body, its receipt
  // time, the events the broker has appended and the produce callbacks.
  datatype Call = Call(request: P.Decoded, received: int, appended: set<nat>, callbacks: seq<P.Ack>)

  // One dispatcher pass: the saved bodies it selected, its request under way
  // and the finished attempts as the client saw them.
  datatype Pass = Pass(batch: seq<Input>, call: Option<Call>, attempts: seq<P.Attempt>)

  // `buffered` holds events handed to the broker client whose fate is unknown
  // to the caller: each may still be appended later, or never.
  datatype System = System(d: D.State, db: O.Db, passes: map<nat, Pass>, buffered: set<Envelope>)

  datatype Step =
    | CreateOrder(orderId: string, amount: int, body: Input)
    | Select(w: nat, limit: nat)
    | Request(w: nat, request: P.Decoded, received: int)
    | Produce(w: nat, i: nat, offset: nat)
    | Callback(w: nat, i: nat, error: Option<P.Failure>)
    | Buffer(w: nat, i: nat)
    | Answer(w: nat, read: nat, transport: P.Transport)
    | Finish(w: nat)
    | Abandon(w: nat)
    | Late(e: Envelope, offset: nat)
    | Foreign(p: nat, record: Record)
    | Worker(step: D.Step)

  function EnvelopeFor(site: Site, pass: Pass, i: nat): Envelope
    requires i < |pass.batch| && pass.call.Some?
  {
    Envelope(pass.batch[i], site.tenant, pass.call.value.received)
  }

  function PublishOf(c: D.Config, e: Envelope, offset: nat): D.Step {
    D.Publish(c.route(KeyOf(e)), Record(offset, Valid(e)))
  }

  function ReportOf(site: Site, pass: Pass): Option<P.Delivery> {
    P.Report(IdsOf(pass.batch), site.attempts, pass.attempts)
  }

  // The client's view of the answer when the handler read this many callbacks.
  function AttemptOf(site: Site, call: Call, read: nat, transport: P.Transport): P.Attempt
    requires read <= |call.callbacks|
  {
    P.Seen(transport, P.Reply(site.checks, call.request, Some(site.tenant), call.received, call.callbacks[..read]))
  }

  predicate KeyInLog(c: D.Config, d: D.State, k: Key) {
    c.route(k) < |d.logs| &&
    exists i :: 0 <= i < |d.logs[c.route(k)]| &&
                d.logs[c.route(k)][i].content.Valid? && KeyOf(d.logs[c.route(k)][i].content.event) == k
  }

  predicate Calling(s: System, w: nat, i: nat) {
    w in s.passes && s.passes[w].call.Some? && i < |s.passes[w].batch|
  }

  // What is assumed of the surroundings: a new order's event id is fresh, the
  // API reads the body that was sent or refuses it, the broker client calls
  // back once for a record and without an error only after the broker appended
  // it, and other publishers never reuse an outbox id with different content.
  predicate Enabled(c: D.Config, site: Site, s: System, step: Step) {
    match step
    case CreateOrder(_, _, body) =>
      && !KeyInLog(c, s.d, Key(site.tenant, body.eventId))
      && (forall e :: e in s.buffered ==> KeyOf(e) != Key(site.tenant, body.eventId))
    case Select(w, limit) => w !in s.passes && 1 <= limit <= 100
    case Request(w, request, _) =>
      && w in s.passes && s.passes[w].call.None? && ReportOf(site, s.passes[w]).None?
      && (request.Inputs? ==> request.inputs == s.passes[w].batch)
    case Produce(w, i, offset) =>
      Calling(s, w, i) && D.Enabled(c, s.d, PublishOf(c, EnvelopeFor(site, s.passes[w], i), offset))
    case Callback(w, i, error) =>
      && Calling(s, w, i) && (error.None? ==> i in s.passes[w].call.value.appended)
      && forall j :: 0 <= j < |s.passes[w].call.value.callbacks| ==> s.passes[w].call.value.callbacks[j].record != i
    case Buffer(w, i) => Calling(s, w, i)
    case Answer(w, read, _) => w in s.passes && s.passes[w].call.Some? && read <= |s.passes[w].call.value.callbacks|
    case Finish(w) => w in s.passes && s.passes[w].call.None? && ReportOf(site, s.passes[w]).Some?
    case Abandon(w) => w in s.passes
    case Late(e, offset) => e in s.buffered && D.Enabled(c, s.d, PublishOf(c, e, offset))
    case Foreign(p, record) =>
      && D.Enabled(c, s.d, D.Publish(p, record))
      && (record.content.Valid? ==>
            var e := record.content.event;
            e.tenant == site.tenant && e.input.eventId in s.db.outbox ==> e.input == s.db.outbox[e.input.eventId].body)
    case Worker(step) => !step.Publish? && D.Enabled(c, s.d, step)
  }

  function Produced(call: Call, i: nat): Call {
    call.(appended := call.appended + {i})
  }

  function CalledBack(call: Call, i: nat, error: Option<P.Failure>): Call {
    call.(callbacks := call.callbacks + [P.Ack(i, error)])
  }

  function Finished(site: Site, db: O.Db, pass: Pass): O.Db
    requires ReportOf(site, pass).Some?
  {
    var ids, report := IdsOf(pass.batch), ReportOf(site, pass).value;
    O.MarkedAll(db, ids, O.StateFor(ids, report), O.CodeFor(ids, report))
  }

  // How a step changes the pass it belongs to.
  function PassAfter(site: Site, pass: Pass, step: Step): Pass
    requires step.Request? || step.Produce? || step.Callback? || step.Answer?
    requires !step.Request? ==> pass.call.Some?
    requires step.Answer? ==> step.read <= |pass.call.value.callbacks|
  {
    match step
    case Request(_, request, received) => pass.(call := Some(Call(request, received, {}, [])))
    case Produce(_, i, _) => pass.(call := Some(Produced(pass.call.value, i)))
    case Callback(_, i, error) => pass.(call := Some(CalledBack(pass.call.value, i, error)))
    case Answer(_, read, transport) =>
      Pass(pass.batch, None, pass.attempts + [AttemptOf(site, pass.call.value, read, transport)])
  }

  function Next(c: D.Config, site: Site, s: System, step: Step): System
    requires Enabled(c, site, s, step)
  {
    match step
    case CreateOrder(orderId, amount, body) => s.(db := O.Created(s.db, orderId, amount, body).0)
    case Select(w, limit) => s.(passes := s.passes[w := Pass(O.PendingIn(s.db, s.db.sequence, limit), None, [])])
    case Request(w, _, _) => s.(passes := s.passes[w := PassAfter(site, s.passes[w], step)])
    case Produce(w, i, offset) =>
      s.(d := D.Next(c, s.d, PublishOf(c, EnvelopeFor(site, s.passes[w], i), offset)),
         passes := s.passes[w := PassAfter(site, s.passes[w], step)])
    case Callback(w, _, _) => s.(passes := s.passes[w := PassAfter(site, s.passes[w], step)])
    case Buffer(w, i) => s.(buffered := s.buffered + {EnvelopeFor(site, s.passes[w], i)})
    case Answer(w, _, _) => s.(passes := s.passes[w := PassAfter(site, s.passes[w], step)])
    case Finish(w) => s.(db := Finished(site, s.db, s.passes[w]), passes := s.passes - {w})
    case Abandon(w) => s.(passes := s.passes - {w})
    case Late(e, offset) => s.(d := D.Next(c, s.d, PublishOf(c, e, offset)))
    case Foreign(p, record) => s.(d := D.Next(c, s.d, D.Publish(p, record)))
    case Worker(step) => s.(d := D.Next(c, s.d, step))
  }

  function Init(c: D.Config): System {
    System(D.Init(c), O.Db(map[], map[], []), map[], {})
  }

  function Run(c: D.Config, site: Site, s: System, steps: seq<Step>): Option<System> {
    if |steps| == 0 then Some(s)
    else
      var t := Run(c, site, s, steps[..|steps| - 1]);
      if t.Some? && Enabled(c, site, t.value, Last(steps)) then Some(Next(c, site, t.value, Last(steps))) else None
  }

  // ----- the invariant -----

  // Every publish of an outbox id carries the saved body.
  ghost predicate Faithful(tenant: string, db: O.Db, e: Envelope) {
    e.tenant == tenant && e.input.eventId in db.outbox ==> e.input == db.outbox[e.input.eventId].body
  }

  ghost predicate LogsFaithful(tenant: string, db: O.Db, d: D.State) {
    forall p, i :: 0 <= p < |d.logs| && 0 <= i < |d.logs[p]| && d.logs[p][i].content.Valid? ==>
      Faithful(tenant, db, d.logs[p][i].content.event)
  }

  ghost predicate BufferOk(tenant: string, db: O.Db, buffered: set<Envelope>) {
    forall e :: e in buffered ==>
      e.tenant == tenant && e.input.eventId in db.outbox && e.input == db.outbox[e.input.eventId].body
  }

  ghost predicate Saved(db: O.Db, batch: seq<Input>) {
    forall i :: 0 <= i < |batch| ==> batch[i].eventId in db.outbox && db.outbox[batch[i].eventId].body == batch[i]
  }

  ghost predicate Logged(c: D.Config, tenant: string, d: D.State, e: Input) {
    KeyInLog(c, d, Key(tenant, e.eventId))
  }

  ghost predicate AllLogged(c: D.Config, tenant: string, d: D.State, batch: seq<Input>) {
    forall i :: 0 <= i < |batch| ==> Logged(c, tenant, d, batch[i])
  }

  // Callbacks are once for a record, and successes are appended records.
  ghost predicate CallbacksOk(n: nat, call: Call) {
    && P.Callbacks(n, call.callbacks)
    && forall j :: 0 <= j < |call.callbacks| && call.callbacks[j].error.None? ==> call.callbacks[j].record in call.appended
  }

  ghost predicate CallOk(c: D.Config, tenant: string, d: D.State, batch: seq<Input>, call: Call) {
    && (call.request.Inputs? ==> call.request.inputs == batch)
    && CallbacksOk(|batch|, call)
    && forall i :: 0 <= i < |batch| && i in call.appended ==> Logged(c, tenant, d, batch[i])
  }

  ghost predicate AttemptsOk(c: D.Config, tenant: string, d: D.State, pass: Pass) {
    forall k :: 0 <= k < |pass.attempts| && P.IsAcknowledgement(pass.attempts[k], IdsOf(pass.batch)) ==>
      AllLogged(c, tenant, d, pass.batch)
  }

  ghost predicate PassOk(c: D.Config, tenant: string, d: D.State, db: O.Db, pass: Pass) {
    && Saved(db, pass.batch)
    && (pass.call.Some? ==> CallOk(c, tenant, d, pass.batch, pass.call.value))
    && AttemptsOk(c, tenant, d, pass)
  }

  ghost predicate AcksOk(c: D.Config, tenant: string, s: System) {
    forall id :: id in s.db.outbox && s.db.outbox[id].state == O.Acknowledged ==> KeyInLog(c, s.d, Key(tenant, id))
  }

  ghost predicate PassesOk(c: D.Config, tenant: string, s: System) {
    forall w :: w in s.passes ==> PassOk(c, tenant, s.d, s.db, s.passes[w])
  }

  ghost predicate Inv(c: D.Config, tenant: string, s: System, h: D.Frontier) {
    && D.Inv(c, s.d, h)
    && O.Consistent(s.db)
    && LogsFaithful(tenant, s.db, s.d)
    && BufferOk(tenant, s.db, s.buffered)
    && PassesOk(c, tenant, s)
    && AcksOk(c, tenant, s)
  }

  // ----- delivered means appended -----

  // Exactly when the client takes an answer as an acknowledgement: the answer
  // arrives intact, the API accepted the request, and the handler read a
  // successful callback for every event.
  lemma {:induction false} AcknowledgedExactly(site: Site, batch: seq<Input>, call: Call, read: nat, transport: P.Transport)
    requires call.request.Inputs? ==> call.request.inputs == batch
    requires CallbacksOk(|batch|, call) && read <= |call.callbacks|
    ensures P.IsAcknowledgement(AttemptOf(site, call, read, transport), IdsOf(batch)) <==>
            && transport.Intact? && call.request.Inputs?
            && P.Passes(site.checks.accepts, P.Envelopes(batch, site.tenant, call.received))
            && P.Passes(site.checks.encodes, P.Envelopes(batch, site.tenant, call.received))
            && forall i :: 0 <= i < |batch| ==> P.Acknowledged(call.callbacks[..read], i)
  {
    P.CallbacksPrefix(|batch|, call.callbacks, read);
    P.ReplyIsExact(site.checks, call.request, Some(site.tenant), call.received, call.callbacks[..read]);
  }

  // An attempt that the client takes as acknowledged: the handler read a
  // successful callback for every event, so the broker appended every one.
  lemma {:induction false} AnswerMeansAppended(site: Site, batch: seq<Input>, call: Call, read: nat, transport: P.Transport, i: nat)
    requires call.request.Inputs? ==> call.request.inputs == batch
    requires CallbacksOk(|batch|, call) && read <= |call.callbacks| && i < |batch|
    requires P.IsAcknowledgement(AttemptOf(site, call, read, transport), IdsOf(batch))
    ensures i in call.appended
  {
    var acks := call.callbacks[..read];
    AcknowledgedExactly(site, batch, call, read, transport);
    assert P.Acknowledged(acks, i);
    var j :| 0 <= j < |acks| && acks[j] == P.Ack(i, None);
    assert call.callbacks[j] == acks[j];
  }

  // A pass whose rows will be marked acknowledged has all its events logged.
  lemma {:induction false} DeliveredIsLogged(c: D.Config, site: Site, d: D.State, db: O.Db, pass: Pass)
    requires PassOk(c, site.tenant, d, db, pass) && ReportOf(site, pass).Some?
    requires O.Confirmed(IdsOf(pass.batch), ReportOf(site, pass).value)
    ensures AllLogged(c, site.tenant, d, pass.batch)
  {
    var k := P.DeliveredIsAcknowledged(P.LowerAll(IdsOf(pass.batch)), site.attempts, pass.attempts);
  }

  // ----- logs only grow -----

  ghost predicate LogsGrow(d: D.State, e: D.State) {
    |d.logs| == |e.logs| && forall p :: 0 <= p < |d.logs| ==> d.logs[p] <= e.logs[p]
  }

  lemma {:induction false} KeysStay(c: D.Config, d: D.State, e: D.State, k: Key)
    requires LogsGrow(d, e) && KeyInLog(c, d, k)
    ensures KeyInLog(c, e, k)
  {
    var p := c.route(k);
    var i :| 0 <= i < |d.logs[p]| && d.logs[p][i].content.Valid? && KeyOf(d.logs[p][i].content.event) == k;
    assert e.logs[p][i] == d.logs[p][i];
  }

  lemma {:induction false} GrowKeepsPass(c: D.Config, tenant: string, d: D.State, e: D.State, db: O.Db, pass: Pass)
    requires LogsGrow(d, e) && PassOk(c, tenant, d, db, pass)
    ensures PassOk(c, tenant, e, db, pass)
  {
    forall i | 0 <= i < |pass.batch| && Logged(c, tenant, d, pass.batch[i])
      ensures Logged(c, tenant, e, pass.batch[i])
    {
      KeysStay(c, d, e, Key(tenant, pass.batch[i].eventId));
    }
  }

  // Moving to a state with longer logs and the same database and buffers.
  lemma {:induction false} GrowKeeps(c: D.Config, tenant: string, s: System, d: D.State)
    requires LogsGrow(s.d, d) && AcksOk(c, tenant, s) && PassesOk(c, tenant, s)
    ensures AcksOk(c, tenant, s.(d := d)) && PassesOk(c, tenant, s.(d := d))
  {
    forall k | KeyInLog(c, s.d, k) ensures KeyInLog(c, d, k) {
      KeysStay(c, s.d, d, k);
    }
    forall w | w in s.passes ensures PassOk(c, tenant, d, s.db, s.passes[w]) {
      GrowKeepsPass(c, tenant, s.d, d, s.db, s.passes[w]);
    }
  }

  lemma {:induction false} PublishKeeps(c: D.Config, tenant: string, s: System, h: D.Frontier, p: nat, r: Record)
    returns (g: D.Frontier)
    requires Inv(c, tenant, s, h) && D.Enabled(c, s.d, D.Publish(p, r))
    requires r.content.Valid? ==> Faithful(tenant, s.db, r.content.event)
    ensures Inv(c, tenant, s.(d := D.Next(c, s.d, D.Publish(p, r))), g)
    ensures r.content.Valid? ==> KeyInLog(c, D.Next(c, s.d, D.Publish(p, r)), KeyOf(r.content.event))
  {
    g := D.StepKeepsInv(c, s.d, h, D.Publish(p, r));
    var d := D.Next(c, s.d, D.Publish(p, r));
    GrowKeeps(c, tenant, s, d);
    assert d.logs[p][|s.d.logs[p]|] == r;
  }

  // ----- every step keeps the invariant -----

  lemma {:induction false} CreateKeeps(c: D.Config, site: Site, s: System, h: D.Frontier, orderId: string, amount: int, body: Input)
    requires Inv(c, site.tenant, s, h) && Enabled(c, site, s, CreateOrder(orderId, amount, body))
    ensures Inv(c, site.tenant, s.(db := O.Created(s.db, orderId, amount, body).0), h)
  {
    O.CreatedKeeps(s.db, orderId, amount, body);
    var db := O.Created(s.db, orderId, amount, body).0;
    forall p, i | 0 <= p < |s.d.logs| && 0 <= i < |s.d.logs[p]| && s.d.logs[p][i].content.Valid?
      ensures Faithful(site.tenant, db, s.d.logs[p][i].content.event)
    {
      var e := s.d.logs[p][i].content.event;
      assert D.PartitionOk(c, p, s.d.logs[p], s.d.committed[p], h[p]);
      assert c.route(KeyOf(e)) == p;
      assert KeyInLog(c, s.d, KeyOf(e));
      assert Faithful(site.tenant, s.db, e);
    }
    forall w | w in s.passes ensures PassOk(c, site.tenant, s.d, db, s.passes[w]) {
      assert PassOk(c, site.tenant, s.d, s.db, s.passes[w]);
    }
  }

  // Rows that become acknowledged belong to a pass whose events are all logged.
  lemma {:induction false} FinishKeepsAcks(c: D.Config, site: Site, s: System, w: nat)
    requires AcksOk(c, site.tenant, s) && Enabled(c, site, s, Finish(w)) && PassOk(c, site.tenant, s.d, s.db, s.passes[w])
    ensures AcksOk(c, site.tenant, Next(c, site, s, Finish(w)))
  {
    var batch := s.passes[w].batch;
    var ids, report := IdsOf(batch), ReportOf(site, s.passes[w]).value;
    var t := Next(c, site, s, Finish(w));
    if O.Confirmed(ids, report) {
      DeliveredIsLogged(c, site, s.d, s.db, s.passes[w]);
    }
    forall id | id in t.db.outbox && t.db.outbox[id].state == O.Acknowledged
      ensures KeyInLog(c, t.d, Key(site.tenant, id))
    {
      O.MarkedAllStates(s.db, ids, O.StateFor(ids, report), O.CodeFor(ids, report), id);
      if s.db.outbox[id].state != O.Acknowledged {
        var i :| 0 <= i < |ids| && ids[i] == id;
        assert Logged(c, site.tenant, s.d, batch[i]);
      }
    }
  }

  // Marking changes no body, so everything that depends on bodies is kept.
  lemma {:induction false} SameBodiesKeep(tenant: string, s: System, db: O.Db)
    requires O.Grew(s.db, db) && db.outbox.Keys == s.db.outbox.Keys
    ensures LogsFaithful(tenant, s.db, s.d) ==> LogsFaithful(tenant, db, s.d)
    ensures BufferOk(tenant, s.db, s.buffered) ==> BufferOk(tenant, db, s.buffered)
    ensures forall batch :: Saved(s.db, batch) ==> Saved(db, batch)
  {
    forall e | Faithful(tenant, s.db, e) ensures Faithful(tenant, db, e) {}
  }

  lemma {:induction false} FinishKeeps(c: D.Config, site: Site, s: System, h: D.Frontier, w: nat)
    requires Inv(c, site.tenant, s, h) && Enabled(c, site, s, Finish(w))
    ensures Inv(c, site.tenant, Next(c, site, s, Finish(w)), h)
  {
    var ids, report := IdsOf(s.passes[w].batch), ReportOf(site, s.passes[w]).value;
    var db := Finished(site, s.db, s.passes[w]);
    O.MarkedAllKeeps(s.db, ids, O.StateFor(ids, report), O.CodeFor(ids, report));
    assert PassOk(c, site.tenant, s.d, s.db, s.passes[w]);
    FinishKeepsAcks(c, site, s, w);
    SameBodiesKeep(site.tenant, s, db);
    forall v | v in s.passes ensures PassOk(c, site.tenant, s.d, db, s.passes[v]) {
      assert PassOk(c, site.tenant, s.d, s.db, s.passes[v]);
    }
  }

  lemma {:induction false} WorkerKeeps(c: D.Config, tenant: string, s: System, h: D.Frontier, step: D.Step) returns (g: D.Frontier)
    requires Inv(c, tenant, s, h) && !step.Publish? && D.Enabled(c, s.d, step)
    ensures Inv(c, tenant, s.(d := D.Next(c, s.d, step)), g)
  {
    g := D.StepKeepsInv(c, s.d, h, step);
    assert D.Next(c, s.d, step).logs == s.d.logs;
    GrowKeeps(c, tenant, s, D.Next(c, s.d, step));
  }

  // Replacing one pass by another good one.
  lemma {:induction false} SetPassKeeps(c: D.Config, tenant: string, s: System, h: D.Frontier, w: nat, pass: Pass)
    requires Inv(c, tenant, s, h) && PassOk(c, tenant, s.d, s.db, pass)
    ensures Inv(c, tenant, s.(passes := s.passes[w := pass]), h)
  {
    var t := s.(passes := s.passes[w := pass]);
    forall v | v in t.passes ensures PassOk(c, tenant, t.d, t.db, t.passes[v]) {
      assert v != w ==> PassOk(c, tenant, s.d, s.db, s.passes[v]);
    }
  }

  lemma {:induction false} ProduceKeeps(c: D.Config, site: Site, s: System, h: D.Frontier, w: nat, i: nat, offset: nat)
    returns (g: D.Frontier)
    requires Inv(c, site.tenant, s, h) && Enabled(c, site, s, Produce(w, i, offset))
    ensures Inv(c, site.tenant, Next(c, site, s, Produce(w, i, offset)), g)
  {
    var pass := s.passes[w];
    var e := EnvelopeFor(site, pass, i);
    assert PassOk(c, site.tenant, s.d, s.db, pass);
    g := PublishKeeps(c, site.tenant, s, h, c.route(KeyOf(e)), Record(offset, Valid(e)));
    var mid := s.(d := D.Next(c, s.d, PublishOf(c, e, offset)));
    assert PassOk(c, site.tenant, mid.d, mid.db, pass) && Logged(c, site.tenant, mid.d, pass.batch[i]);
    SetPassKeeps(c, site.tenant, mid, g, w, PassAfter(site, pass, Produce(w, i, offset)));
  }

  lemma {:induction false} CalledBackOk(n: nat, call: Call, i: nat, error: Option<P.Failure>)
    requires CallbacksOk(n, call) && i < n && (error.None? ==> i in call.appended)
    requires forall j :: 0 <= j < |call.callbacks| ==> call.callbacks[j].record != i
    ensures CallbacksOk(n, CalledBack(call, i, error))
  {
  }

  lemma {:induction false} CallbackKeeps(c: D.Config, site: Site, s: System, h: D.Frontier, w: nat, i: nat, error: Option<P.Failure>)
    requires Inv(c, site.tenant, s, h) && Enabled(c, site, s, Callback(w, i, error))
    ensures Inv(c, site.tenant, Next(c, site, s, Callback(w, i, error)), h)
  {
    assert PassOk(c, site.tenant, s.d, s.db, s.passes[w]);
    CalledBackOk(|s.passes[w].batch|, s.passes[w].call.value, i, error);
    SetPassKeeps(c, site.tenant, s, h, w, PassAfter(site, s.passes[w], Callback(w, i, error)));
  }

  lemma {:induction false} AnswerKeeps(c: D.Config, site: Site, s: System, h: D.Frontier, w: nat, read: nat, transport: P.Transport)
    requires Inv(c, site.tenant, s, h) && Enabled(c, site, s, Answer(w, read, transport))
    ensures Inv(c, site.tenant, Next(c, site, s, Answer(w, read, transport)), h)
  {
    var pass := s.passes[w];
    var call := pass.call.value;
    assert PassOk(c, site.tenant, s.d, s.db, pass);
    if P.IsAcknowledgement(AttemptOf(site, call, read, transport), IdsOf(pass.batch)) {
      forall i | 0 <= i < |pass.batch| ensures Logged(c, site.tenant, s.d, pass.batch[i]) {
        AnswerMeansAppended(site, pass.batch, call, read, transport, i);
      }
    }
    SetPassKeeps(c, site.tenant, s, h, w, PassAfter(site, pass, Answer(w, read, transport)));
  }

  lemma {:induction false} SelectKeeps(c: D.Config, site: Site, s: System, h: D.Frontier, w: nat, limit: nat)
    requires Inv(c, site.tenant, s, h) && Enabled(c, site, s, Select(w, limit))
    ensures Inv(c, site.tenant, Next(c, site, s, Select(w, limit)), h)
  {
    O.SelectedArePending(s.db, limit);
    SetPassKeeps(c, site.tenant, s, h, w, Pass(O.PendingIn(s.db, s.db.sequence, limit), None, []));
  }

  lemma {:induction false} PassesKeep(c: D.Config, site: Site, s: System, h: D.Frontier, step: Step)
    requires Inv(c, site.tenant, s, h) && Enabled(c, site, s, step) && (step.Request? || step.Buffer? || step.Abandon?)
    ensures Inv(c, site.tenant, Next(c, site, s, step), h)
  {
    assert PassOk(c, site.tenant, s.d, s.db, s.passes[step.w]);
    if step.Request? {
      SetPassKeeps(c, site.tenant, s, h, step.w, PassAfter(site, s.passes[step.w], step));
    }
  }

  // Steps that publish nothing and belong to no reader.
  predicate Local(step: Step) {
    !step.Produce? && !step.Late? && !step.Foreign? && !step.Worker?
  }

  lemma {:induction false} LocalStepKeeps(c: D.Config, site: Site, s: System, h: D.Frontier, step: Step)
    requires Inv(c, site.tenant, s, h) && Enabled(c, site, s, step) && Local(step)
    ensures Inv(c, site.tenant, Next(c, site, s, step), h)
  {
    match step
    case CreateOrder(orderId, amount, body) => CreateKeeps(c, site, s, h, orderId, amount, body);
    case Select(w, limit) => SelectKeeps(c, site, s, h, w, limit);
    case Callback(w, i, error) => CallbackKeeps(c, site, s, h, w, i, error);
    case Answer(w, read, transport) => AnswerKeeps(c, site, s, h, w, read, transport);
    case Finish(w) => FinishKeeps(c, site, s, h, w);
    case _ => PassesKeep(c, site, s, h, step);
  }

  lemma {:induction false} StepKeepsInv(c: D.Config, site: Site, s: System, h: D.Frontier, step: Step) returns (g: D.Frontier)
    requires Inv(c, site.tenant, s, h) && Enabled(c, site, s, step)
    ensures Inv(c, site.tenant, Next(c, site, s, step), g)
  {
    g := h;
    match step
    case Produce(w, i, offset) => g := ProduceKeeps(c, site, s, h, w, i, offset);
    case Late(e, offset) => g := PublishKeeps(c, site.tenant, s, h, c.route(KeyOf(e)), Record(offset, Valid(e)));
    case Foreign(p, record) => g := PublishKeeps(c, site.tenant, s, h, p, record);
    case Worker(d) => g := WorkerKeeps(c, site.tenant, s, h, d);
    case _ => LocalStepKeeps(c, site, s, h, step);
  }

  lemma {:induction false} RunKeepsInv(c: D.Config, site: Site, steps: seq<Step>) returns (h: D.Frontier)
    requires c.Valid() && Run(c, site, Init(c), steps).Some?
    ensures Inv(c, site.tenant, Run(c, site, Init(c), steps).value, h)
    decreases |steps|
  {
    if |steps| == 0 {
      D.InitInv(c);
      h := seq(c.partitions, _ => 0);
    } else {
      var init := steps[..|steps| - 1];
      var f := RunKeepsInv(c, site, init);
      h := StepKeepsInv(c, site, Run(c, site, Init(c), init).value, f, Last(steps));
    }
  }

  // ----- main results -----

  ghost predicate InLogWithBody(log: seq<Record>, tenant: string, body: Input) {
    exists i :: 0 <= i < |log| && log[i].content.Valid? && log[i].content.event.tenant == tenant && log[i].content.event.input == body
  }

  // A row marked acknowledged has its event in the log, with the saved body.
  lemma {:induction false} AcknowledgedIsInLog(c: D.Config, site: Site, steps: seq<Step>, id: EventId)
    requires c.Valid() && Run(c, site, Init(c), steps).Some?
    requires var s := Run(c, site, Init(c), steps).value;
             id in s.db.outbox && s.db.outbox[id].state == O.Acknowledged
    ensures var s := Run(c, site, Init(c), steps).value;
            var p := c.route(Key(site.tenant, id));
            p < |s.d.logs| && InLogWithBody(s.d.logs[p], site.tenant, s.db.outbox[id].body)
  {
    var h := RunKeepsInv(c, site, steps);
    var s := Run(c, site, Init(c), steps).value;
    var k := Key(site.tenant, id);
    var p := c.route(k);
    assert KeyInLog(c, s.d, k);
    var i :| 0 <= i < |s.d.logs[p]| && s.d.logs[p][i].content.Valid? && KeyOf(s.d.logs[p][i].content.event) == k;
    assert Faithful(site.tenant, s.db, s.d.logs[p][i].content.event);
  }

  // Once its partition's committed offset has passed any record of an outbox
  // event, the table holds the row of that event, with the saved body.
  lemma {:induction false} PassedIsStored(c: D.Config, site: Site, steps: seq<Step>, id: EventId, i: nat)
    requires c.Valid() && Run(c, site, Init(c), steps).Some?
    requires var s := Run(c, site, Init(c), steps).value;
             var p := c.route(Key(site.tenant, id));
             && id in s.db.outbox && p < |s.d.logs| == |s.d.committed| && i < |s.d.logs[p]|
             && s.d.logs[p][i].content.Valid? && KeyOf(s.d.logs[p][i].content.event) == Key(site.tenant, id)
             && s.d.logs[p][i].offset < s.d.committed[p]
    ensures var s := Run(c, site, Init(c), steps).value;
            Key(site.tenant, id) in s.d.table && s.d.table[Key(site.tenant, id)].input == s.db.outbox[id].body
  {
    var h := RunKeepsInv(c, site, steps);
    var s := Run(c, site, Init(c), steps).value;
    var k := Key(site.tenant, id);
    var p := c.route(k);
    var log := s.d.logs[p];
    assert D.PartitionOk(c, p, log, s.d.committed[p], h[p]);
    D.BelowSplits(log, s.d.committed[p]);
    D.PrefixIsHandled(c, s.d, h, p, i);
    assert KeyInLog(c, s.d, k);
    FirstIsFaithful(c, site, s, id);
  }

  // ----- acknowledged is never lost -----

  function Lifted(steps: seq<D.Step>): seq<Step> {
    seq(|steps|, i requires 0 <= i < |steps| => Worker(steps[i]))
  }

  // Readers can act in the whole system as they do in the protocol alone.
  lemma {:induction false} LiftRun(c: D.Config, site: Site, s: System, steps: seq<D.Step>)
    requires D.Run(c, s.d, steps).Some? && R.ReadersOnly(steps)
    ensures Run(c, site, s, Lifted(steps)) == Some(s.(d := D.Run(c, s.d, steps).value))
    decreases |steps|
  {
    if |steps| > 0 {
      var init := steps[..|steps| - 1];
      LiftRun(c, site, s, init);
      assert Lifted(steps)[..|steps| - 1] == Lifted(init);
      assert Last(Lifted(steps)) == Worker(Last(steps));
    }
  }

  lemma {:induction false} RunConcat(c: D.Config, site: Site, s: System, a: seq<Step>, b: seq<Step>)
    requires Run(c, site, s, a).Some?
    ensures Run(c, site, s, a + b) == Run(c, site, Run(c, site, s, a).value, b)
    decreases |b|
  {
    if |b| == 0 {
      assert a + b == a;
    } else {
      var init := b[..|b| - 1];
      RunConcat(c, site, s, a, init);
      assert (a + b)[..|a + b| - 1] == a + init && Last(a + b) == Last(b);
    }
  }

  // The first record of a logged outbox event carries the saved body.
  lemma {:induction false} FirstIsFaithful(c: D.Config, site: Site, s: System, id: EventId)
    requires LogsFaithful(site.tenant, s.db, s.d) && id in s.db.outbox && KeyInLog(c, s.d, Key(site.tenant, id))
    ensures var e := FirstIn(s.d.logs[c.route(Key(site.tenant, id))], Key(site.tenant, id));
            e.Some? && e.value.input == s.db.outbox[id].body
  {
    var k := Key(site.tenant, id);
    var p := c.route(k);
    FirstInFound(s.d.logs[p], k);
    var e := FirstIn(s.d.logs[p], k).value;
    var j :| 0 <= j < |s.d.logs[p]| && s.d.logs[p][j].content == Valid(e);
    assert Faithful(site.tenant, s.db, s.d.logs[p][j].content.event);
  }

  // Whatever dispatchers, publishers and readers went through: from there on
  // one replacement reader without failures stores every acknowledged event
  // with its saved body.
  lemma {:induction false} AcknowledgedCanBeStored(c: D.Config, site: Site, steps: seq<Step>, id: EventId, r: nat)
    returns (more: seq<Step>)
    requires c.Valid() && Run(c, site, Init(c), steps).Some?
    requires var s := Run(c, site, Init(c), steps).value;
             r !in s.d.readers && id in s.db.outbox && s.db.outbox[id].state == O.Acknowledged
    ensures Run(c, site, Init(c), steps + more).Some?
    ensures var s, t := Run(c, site, Init(c), steps).value, Run(c, site, Init(c), steps + more).value;
            Key(site.tenant, id) in t.d.table && t.d.table[Key(site.tenant, id)].input == s.db.outbox[id].body
  {
    var h := RunKeepsInv(c, site, steps);
    var s, k := Run(c, site, Init(c), steps).value, Key(site.tenant, id);
    var dsteps, d, g := R.ReplacementFinishes(c, s.d, h, r);
    LiftRun(c, site, s, dsteps);
    more := Lifted(dsteps);
    RunConcat(c, site, Init(c), steps, more);
    FirstIsFaithful(c, site, s, id);
    assert Lookup(d.table, k) == FirstIn(D.Prefix(d.logs, g, c.route(k)), k);
    assert D.Prefix(d.logs, g, c.route(k)) == d.logs[c.route(k)];
  }

  // Orders and bodies never change, acknowledged and rejected are final, and
  // every order keeps its one outbox row.
  lemma {:induction false} OutboxHistory(c: D.Config, site: Site, steps: seq<Step>, n: nat)
    requires c.Valid() && n <= |steps| && Run(c, site, Init(c), steps).Some?
    ensures Run(c, site, Init(c), steps[..n]).Some?
    ensures O.Consistent(Run(c, site, Init(c), steps).value.db)
    ensures O.Grew(Run(c, site, Init(c), steps[..n]).value.db, Run(c, site, Init(c), steps).value.db)
    decreases |steps|
  {
    var h := RunKeepsInv(c, site, steps);
    if n == |steps| {
      assert steps[..n] == steps;
    } else {
      var init, step := steps[..|steps| - 1], Last(steps);
      OutboxHistory(c, site, init, n);
      assert init[..n] == steps[..n];
      var s := Run(c, site, Init(c), init).value;
      if step.CreateOrder? {
        O.CreatedKeeps(s.db, step.orderId, step.amount, step.body);
      } else if step.Finish? {
        var ids, report := IdsOf(s.passes[step.w].batch), ReportOf(site, s.passes[step.w]).value;
        O.MarkedAllKeeps(s.db, ids, O.StateFor(ids, report), O.CodeFor(ids, report));
      }
    }
  }
}
