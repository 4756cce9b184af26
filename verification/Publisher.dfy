/** From HTTP request to broker: the all-acknowledgements rule, the 202 boundary and the client's retries. */
module Publisher {
  import opened Basics
  import opened EventTable

  datatype Failure = MaxBuffered | TimedOut | Broker

  // A produce callback: which record it is for, and its error if any.
  datatype Ack = Ack(record: nat, error: Option<Failure>)

  datatype SendResult = Sent | Saturated | Unavailable

  // The client library calls back at most once for each record.
  ghost predicate Callbacks(n: nat, acks: seq<Ack>) {
    && (forall i :: 0 <= i < |acks| ==> acks[i].record < n)
    && (forall i, j :: 0 <= i < j < |acks| ==> acks[i].record != acks[j].record)
  }

  ghost predicate Acknowledged(acks: seq<Ack>, record: nat) {
    Ack(record, None) in acks
  }

  function Records(acks: seq<Ack>): set<nat> {
    if |acks| == 0 then {} else Records(acks[..|acks| - 1]) + {acks[|acks| - 1].record}
  }

  lemma {:induction false} RecordsMember(acks: seq<Ack>, r: nat)
    ensures r in Records(acks) <==> exists i :: 0 <= i < |acks| && acks[i].record == r
  {
    if |acks| > 0 {
      RecordsMember(acks[..|acks| - 1], r);
    }
  }

  lemma {:induction false} DistinctCount(n: nat, acks: seq<Ack>)
    requires Callbacks(n, acks)
    ensures |Records(acks)| == |acks| && Records(acks) <= Interval(0, n)
  {
    if |acks| > 0 {
      var init, last := acks[..|acks| - 1], acks[|acks| - 1];
      DistinctCount(n, init);
      RecordsMember(init, last.record);
    }
  }

  // As many callbacks as records means one for every record.
  lemma {:induction false} EveryRecordCalledBack(n: nat, acks: seq<Ack>)
    requires Callbacks(n, acks)
    ensures |acks| <= n && (|acks| == n ==> forall r :: r in Interval(0, n) ==> r in Records(acks))
  {
    DistinctCount(n, acks);
    SubsetSize(Records(acks), Interval(0, n));
  }

  // What `send` returns when `read` are the callbacks it reads, in order,
  // before its deadline.
  function SendOutcome(n: nat, read: seq<Ack>): SendResult
    decreases n
  {
    if n == 0 then Sent
    else if |read| == 0 then Unavailable
    else
      match read[0].error
      case Some(f) => if f.MaxBuffered? then Saturated else Unavailable
      case None => SendOutcome(n - 1, read[1..])
  }

  lemma {:induction false} SentReads(n: nat, read: seq<Ack>)
    ensures SendOutcome(n, read) == Sent <==> n <= |read| && forall i :: 0 <= i < n ==> read[i].error.None?
    decreases n
  {
    if n > 0 && |read| > 0 && read[0].error.None? {
      SentReads(n - 1, read[1..]);
      assert forall i :: 0 < i < n && i < |read| ==> read[i] == read[1..][i - 1];
    }
  }

  // Each callback of an all-successful reading is for another record, so all
  // records are covered.
  lemma {:induction false} SentIsAcknowledged(n: nat, read: seq<Ack>, record: nat)
    requires Callbacks(n, read) && SendOutcome(n, read) == Sent && record < n
    ensures Acknowledged(read, record)
  {
    SentReads(n, read);
    EveryRecordCalledBack(n, read);
    assert record in Interval(0, n);
    RecordsMember(read, record);
    var j :| 0 <= j < |read| && read[j].record == record;
    assert read[j] == Ack(record, None);
  }

  lemma {:induction false} AcknowledgedIsSent(n: nat, read: seq<Ack>)
    requires Callbacks(n, read) && forall i :: 0 <= i < n ==> Acknowledged(read, i)
    ensures SendOutcome(n, read) == Sent
  {
    forall r | r in Interval(0, n) ensures r in Records(read) {
      assert Acknowledged(read, r);
      var j :| 0 <= j < |read| && read[j] == Ack(r, None);
      RecordsMember(read, r);
    }
    DistinctCount(n, read);
    SubsetSize(Interval(0, n), Records(read));
    forall i | 0 <= i < n ensures read[i].error.None? {
      assert Acknowledged(read, read[i].record);
      var j :| 0 <= j < |read| && read[j] == Ack(read[i].record, None);
    }
    SentReads(n, read);
  }

  // The all-acknowledgements rule, both ways.
  lemma {:induction false} SentExactly(n: nat, read: seq<Ack>)
    requires Callbacks(n, read)
    ensures SendOutcome(n, read) == Sent <==> forall i :: 0 <= i < n ==> Acknowledged(read, i)
  {
    if SendOutcome(n, read) == Sent {
      forall i | 0 <= i < n ensures Acknowledged(read, i) {
        SentIsAcknowledged(n, read, i);
      }
    } else if forall i :: 0 <= i < n ==> Acknowledged(read, i) {
      AcknowledgedIsSent(n, read);
    }
  }

  lemma {:induction false} CallbacksPrefix(n: nat, acks: seq<Ack>, k: nat)
    requires Callbacks(n, acks) && k <= |acks|
    ensures Callbacks(n, acks[..k])
  {
  }

  // Wait for one callback per record or the deadline. `acks` is the order in
  // which callbacks reach the channel, which has room for all of them, so a
  // late callback never waits for a reader; `deadline` is how many are read
  // before the deadline ends the wait.
  method Send(n: nat, acks: seq<Ack>, deadline: nat) returns (r: SendResult)
    requires Callbacks(n, acks)
    ensures |acks| <= n
    ensures r == SendOutcome(n, acks[..Min(deadline, |acks|)])
    ensures r.Sent? ==> forall i :: 0 <= i < n ==> Acknowledged(acks, i)
    ensures r.Saturated? ==> exists i :: 0 <= i < deadline && i < |acks| && acks[i].error == Some(MaxBuffered)
  {
    EveryRecordCalledBack(n, acks);
    ghost var read := acks[..Min(deadline, |acks|)];
    var received := 0;
    while received < n
      invariant 0 <= received <= |read| && received <= n
      invariant forall i :: 0 <= i < received ==> acks[i].error.None?
      invariant SendOutcome(n, read) == SendOutcome(n - received, read[received..])
    {
      if received >= deadline || received >= |acks| {
        return Unavailable;
      }
      var e := acks[received].error;
      assert read[received..][0] == acks[received] && read[received..][1..] == read[received + 1..];
      received := received + 1;
      match e {
        case Some(f) =>
          if f.MaxBuffered? {
            assert acks[received - 1].error == Some(MaxBuffered);
            return Saturated;
          }
          return Unavailable;
        case None =>
      }
    }
    CallbacksPrefix(n, acks, |read|);
    SentExactly(n, read);
    forall i | 0 <= i < n ensures Acknowledged(acks, i) {
      assert Acknowledged(read, i);
    }
    r := Sent;
  }

  // ----- the HTTP handler -----

  datatype Decoded = Inputs(inputs: seq<Input>) | Invalid | TooLarge

  datatype Response = Response(status: nat, eventIds: seq<EventId>)

  // The checks an event passes before it is published.
  datatype Checks = Checks(accepts: Envelope -> bool, encodes: Envelope -> bool)

  function Envelopes(inputs: seq<Input>, tenant: string, received: int): (es: seq<Envelope>)
    ensures |es| == |inputs|
  {
    seq(|inputs|, i requires 0 <= i < |inputs| => Envelope(inputs[i], tenant, received))
  }

  predicate Passes(check: Envelope -> bool, es: seq<Envelope>) {
    forall i :: 0 <= i < |es| ==> check(es[i])
  }

  // The answer to a request when `read` are the callbacks read in time.
  function Reply(checks: Checks, request: Decoded, tenant: Option<string>, received: int, read: seq<Ack>): Response {
    match request
    case TooLarge => Response(413, [])
    case Invalid => Response(400, [])
    case Inputs(inputs) =>
      if tenant.None? then Response(500, [])
      else
        var es := Envelopes(inputs, tenant.value, received);
        if !Passes(checks.accepts, es) then Response(400, [])
        else if !Passes(checks.encodes, es) || SendOutcome(|es|, read) != Sent then Response(503, [])
        else Response(202, IdsOf(inputs))
  }

  // 202 is answered exactly when the request is well formed, every event
  // passes the checks and the broker acknowledged every one of them; it names
  // exactly those events, and no other answer names any. A request is refused
  // for good only for what it holds, and an event that the broker did not
  // acknowledge leads to 503.
  lemma {:induction false} ReplyIsExact(checks: Checks, request: Decoded, tenant: Option<string>, received: int, read: seq<Ack>)
    requires request.Inputs? ==> Callbacks(|request.inputs|, read)
    ensures var r := Reply(checks, request, tenant, received, read);
            && (r.status == 202 <==>
                  && request.Inputs? && tenant.Some?
                  && Passes(checks.accepts, Envelopes(request.inputs, tenant.value, received))
                  && Passes(checks.encodes, Envelopes(request.inputs, tenant.value, received))
                  && forall i :: 0 <= i < |request.inputs| ==> Acknowledged(read, i))
            && r.eventIds == (if r.status == 202 then IdsOf(request.inputs) else [])
            && (r.status == 413 <==> request.TooLarge?)
            && (r.status == 400 <==>
                  || request.Invalid?
                  || (request.Inputs? && tenant.Some? &&
                      exists i :: 0 <= i < |request.inputs| && !checks.accepts(Envelope(request.inputs[i], tenant.value, received))))
            && (r.status == 500 <==> request.Inputs? && tenant.None?)
            && (r.status == 503 <==>
                  && request.Inputs? && tenant.Some?
                  && Passes(checks.accepts, Envelopes(request.inputs, tenant.value, received))
                  && exists i :: 0 <= i < |request.inputs| &&
                                 (!checks.encodes(Envelope(request.inputs[i], tenant.value, received)) || !Acknowledged(read, i)))
  {
    if request.Inputs? {
      if tenant.Some? {
        var es := Envelopes(request.inputs, tenant.value, received);
        assert forall i :: 0 <= i < |es| ==> es[i] == Envelope(request.inputs[i], tenant.value, received);
      }
      SentExactly(|request.inputs|, read);
    }
  }

  method Ingest(checks: Checks, request: Decoded, tenant: Option<string>, received: int, acks: seq<Ack>, deadline: nat)
    returns (response: Response, published: seq<Envelope>)
    requires request.Inputs? ==> Callbacks(|request.inputs|, acks)
    ensures response == Reply(checks, request, tenant, received, acks[..Min(deadline, |acks|)])
    ensures request.TooLarge? <==> response.status == 413
    ensures response.status == 400 ==> published == []
    ensures response.status == 202 ==>
              published == Envelopes(request.inputs, tenant.value, received) &&
              forall i :: 0 <= i < |published| ==> Acknowledged(acks, i)
  {
    if request.TooLarge? {
      return Response(413, []), [];
    }
    if request.Invalid? {
      return Response(400, []), [];
    }
    if tenant.None? {
      return Response(500, []), [];
    }
    ghost var es := Envelopes(request.inputs, tenant.value, received);
    var events: seq<Envelope>, ids: seq<EventId>, i := [], [], 0;
    while i < |request.inputs|
      invariant 0 <= i <= |request.inputs| && |ids| == i && events == es[..i]
      invariant forall j :: 0 <= j < i ==> checks.accepts(es[j]) && ids[j] == request.inputs[j].eventId
    {
      var e := Envelope(request.inputs[i], tenant.value, received);
      assert e == es[i];
      if !checks.accepts(e) {
        return Response(400, []), [];
      }
      events := events + [e];
      ids := ids + [request.inputs[i].eventId];
      i := i + 1;
    }
    assert events == es && ids == IdsOf(request.inputs);
    i := 0;
    while i < |events|
      invariant 0 <= i <= |events|
      invariant forall j :: 0 <= j < i ==> checks.encodes(events[j])
    {
      if !checks.encodes(events[i]) {
        return Response(503, []), [];
      }
      i := i + 1;
    }
    published := events;
    var sent := Send(|events|, acks, deadline);
    if sent != Sent {
      return Response(503, []), published;
    }
    response := Response(202, ids);
  }

  // ----- the client -----

  // One HTTP attempt as the client sees it; `accepted` says that the body was
  // readable and its status field was "accepted".
  datatype Attempt =
    | Replied(status: nat, eventIds: seq<EventId>, accepted: bool)
    | ConnectionFailed
    | CertificateRejected

  // What becomes of a request and its answer on the way: the answer arrives,
  // arrives with an unreadable body, or not at all; the server's certificate
  // is refused; or an earlier stage of the server answers with an error.
  datatype Transport = Intact | Garbled | Lost | Untrusted | Refused(status: nat)

  function Seen(transport: Transport, response: Response): Attempt {
    match transport
    case Intact => Replied(response.status, response.eventIds, response.status == 202)
    case Garbled => Replied(response.status, [], false)
    case Lost => ConnectionFailed
    case Untrusted => CertificateRejected
    case Refused(status) => Replied(status, [], false)
  }

  datatype Delivery = Delivered | Failed(status: Option<nat>)

  predicate IsAcknowledgement(a: Attempt, ids: seq<EventId>) {
    a.Replied? && a.status == 202 && a.eventIds == ids && a.accepted
  }

  predicate Retryable(a: Attempt) {
    match a
    case Replied(status, _, _) => status == 202 || status == 429 || status >= 500
    case ConnectionFailed => true
    case CertificateRejected => false
  }

  function StatusOf(a: Attempt): Option<nat> {
    if a.Replied? then Some(a.status) else None
  }

  predicate IsHex(c: char) {
    '0' <= c <= '9' || 'a' <= c <= 'f' || 'A' <= c <= 'F'
  }

  predicate IsUuid(id: string) {
    |id| == 36 && forall i :: 0 <= i < 36 ==> if i in {8, 13, 18, 23} then id[i] == '-' else IsHex(id[i])
  }

  function LowerChar(c: char): char {
    if 'A' <= c <= 'Z' then c - 'A' + 'a' else c
  }

  function Lower(id: string): string {
    seq(|id|, i requires 0 <= i < |id| => LowerChar(id[i]))
  }

  function LowerAll(ids: seq<string>): (lower: seq<string>)
    ensures |lower| == |ids|
  {
    seq(|ids|, i requires 0 <= i < |ids| => Lower(ids[i]))
  }

  predicate Sendable(ids: seq<string>) {
    |ids| > 0 && forall i :: 0 <= i < |ids| ==> IsUuid(ids[i])
  }

  // What the client reports after these attempts; None while it goes on trying.
  function DeliveryOf(expected: seq<EventId>, max: nat, attempts: seq<Attempt>): Option<Delivery> {
    if |attempts| == 0 then None
    else
      var earlier := DeliveryOf(expected, max, attempts[..|attempts| - 1]);
      var a := attempts[|attempts| - 1];
      if earlier.Some? then earlier
      else if IsAcknowledgement(a, expected) then Some(Delivered)
      else if !Retryable(a) || |attempts| >= max then Some(Failed(StatusOf(a)))
      else None
  }

  // The client goes on exactly while attempts are left and every attempt made
  // failed in a way that may be retried.
  lemma {:induction false} TryingExactly(expected: seq<EventId>, max: nat, attempts: seq<Attempt>)
    requires max >= 1
    ensures DeliveryOf(expected, max, attempts).None? <==>
            |attempts| < max && forall i :: 0 <= i < |attempts| ==> Retryable(attempts[i]) && !IsAcknowledgement(attempts[i], expected)
  {
    if |attempts| > 0 {
      TryingExactly(expected, max, attempts[..|attempts| - 1]);
    }
  }

  // The report of the client is about the first attempt that decides.
  lemma {:induction false} DecidedBy(expected: seq<EventId>, max: nat, attempts: seq<Attempt>) returns (i: nat)
    requires DeliveryOf(expected, max, attempts).Some?
    ensures i < |attempts| && DeliveryOf(expected, max, attempts[..i]).None?
    ensures DeliveryOf(expected, max, attempts).value ==
            if IsAcknowledgement(attempts[i], expected) then Delivered else Failed(StatusOf(attempts[i]))
  {
    i := |attempts| - 1;
    if DeliveryOf(expected, max, attempts[..i]).Some? {
      i := DecidedBy(expected, max, attempts[..i]);
      assert attempts[..|attempts| - 1][..i] == attempts[..i];
    }
  }

  lemma {:induction false} DeliveredIsAcknowledged(expected: seq<EventId>, max: nat, attempts: seq<Attempt>) returns (i: nat)
    requires DeliveryOf(expected, max, attempts) == Some(Delivered)
    ensures i < |attempts| && IsAcknowledgement(attempts[i], expected)
  {
    i := |attempts| - 1;
    if DeliveryOf(expected, max, attempts[..i]).Some? {
      i := DeliveredIsAcknowledged(expected, max, attempts[..i]);
    }
  }

  // Malformed ids are refused before the first attempt.
  function Report(ids: seq<string>, max: nat, attempts: seq<Attempt>): Option<Delivery> {
    if Sendable(ids) then DeliveryOf(LowerAll(ids), max, attempts) else Some(Failed(None))
  }

  // What was decided does not depend on later attempts.
  lemma {:induction false} DecidedStays(ids: seq<string>, max: nat, attempts: seq<Attempt>, k: nat)
    requires k <= |attempts| && Report(ids, max, attempts[..k]).Some?
    ensures Report(ids, max, attempts) == Report(ids, max, attempts[..k])
    decreases |attempts|
  {
    if k == |attempts| {
      assert attempts[..k] == attempts;
    } else {
      var init := attempts[..|attempts| - 1];
      assert init[..k] == attempts[..k];
      DecidedStays(ids, max, init, k);
    }
  }

  // Up to `max` attempts with the same body, of the answers the client would
  // get: it stops at the first attempt that decides. Delivered exactly when
  // the last attempt made was acknowledged with the expected ids.
  method SendBatch(ids: seq<string>, max: nat, attempts: seq<Attempt>) returns (r: Delivery, made: nat)
    requires 1 <= max <= |attempts|
    ensures made <= max && (made == 0 <==> !Sendable(ids))
    ensures Report(ids, max, attempts) == Report(ids, max, attempts[..made]) == Some(r)
    ensures made > 0 ==> Report(ids, max, attempts[..made - 1]).None?
    ensures r.Delivered? <==> made > 0 && IsAcknowledgement(attempts[made - 1], LowerAll(ids))
    ensures made > 0 && r.Failed? ==> made == max || !Retryable(attempts[made - 1])
  {
    made := 0;
    r := Failed(None);
    if !Sendable(ids) {
      return;
    }
    var expected := LowerAll(ids);
    while made < max
      invariant 0 <= made <= max && r.Failed?
      invariant made < max ==> DeliveryOf(expected, max, attempts[..made]).None?
      invariant made == max ==> DeliveryOf(expected, max, attempts[..made]) == Some(r)
      invariant made > 0 ==> DeliveryOf(expected, max, attempts[..made - 1]).None? && !IsAcknowledgement(attempts[made - 1], expected)
    {
      var a := attempts[made];
      assert attempts[..made + 1][..made] == attempts[..made];
      made := made + 1;
      if IsAcknowledgement(a, expected) {
        DecidedStays(ids, max, attempts, made);
        return Delivered, made;
      }
      r := Failed(StatusOf(a));
      if !Retryable(a) {
        break;
      }
    }
    DecidedStays(ids, max, attempts, made);
  }
}
