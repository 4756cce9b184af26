/**
  * What a worker does with the records of one partition: the ordered list of
  * external operations, and the traces of calls that a reader may make.
  */
module ReaderPlan {
  import opened Basics
  import opened EventTable

  // Decoding a record's bytes is a pure function: they hold an envelope, or
  // they are poison.
  datatype Content = Valid(event: Envelope) | Poison(bytes: seq<int>)
  datatype Record = Record(offset: nat, content: Content)

  datatype Op =
    | Write(partition: nat, batch: seq<Record>)
    | Quarantine(partition: nat, record: Record)
    | Commit(partition: nat, record: Record)

  function EventsOf(rs: seq<Record>): (es: seq<Envelope>)
  {
    if |rs| == 0 then []
    else match rs[|rs| - 1].content
      case Valid(e) => EventsOf(rs[..|rs| - 1]) + [e]
      case Poison(_) => EventsOf(rs[..|rs| - 1])
  }

  lemma {:induction false} EventsOfConcat(a: seq<Record>, b: seq<Record>)
    ensures EventsOf(a + b) == EventsOf(a) + EventsOf(b)
  {
    if |b| == 0 {
      assert a + b == a;
    } else {
      assert (a + b)[..|a + b| - 1] == a + b[..|b| - 1];
      EventsOfConcat(a, b[..|b| - 1]);
    }
  }

  lemma {:induction false} EventsOfMember(rs: seq<Record>, e: Envelope)
    ensures e in EventsOf(rs) <==> exists i :: 0 <= i < |rs| && rs[i].content == Valid(e)
  {
    if |rs| > 0 {
      EventsOfMember(rs[..|rs| - 1], e);
    }
  }

  // The first event with key k among some records.
  function FirstIn(rs: seq<Record>, k: Key): Option<Envelope> {
    if |rs| == 0 then None
    else if rs[0].content.Valid? && KeyOf(rs[0].content.event) == k then Some(rs[0].content.event)
    else FirstIn(rs[1..], k)
  }

  lemma {:induction false} FirstInConcat(a: seq<Record>, b: seq<Record>, k: Key)
    ensures FirstIn(a + b, k) == OrElse(FirstIn(a, k), FirstIn(b, k))
  {
    if |a| == 0 {
      assert a + b == b;
    } else {
      assert (a + b)[1..] == a[1..] + b;
      FirstInConcat(a[1..], b, k);
    }
  }

  lemma {:induction false} FirstInFound(rs: seq<Record>, k: Key)
    ensures FirstIn(rs, k).None? <==> forall i :: 0 <= i < |rs| && rs[i].content.Valid? ==> KeyOf(rs[i].content.event) != k
    ensures FirstIn(rs, k).Some? ==> exists i :: 0 <= i < |rs| && rs[i].content == Valid(FirstIn(rs, k).value)
    ensures FirstIn(rs, k).Some? ==> KeyOf(FirstIn(rs, k).value) == k
  {
    if |rs| > 0 {
      FirstInFound(rs[1..], k);
      assert forall i :: 1 <= i < |rs| ==> rs[i] == rs[1..][i - 1];
    }
  }

  lemma {:induction false} FirstInIsFirst(rs: seq<Record>, k: Key)
    ensures First(EventsOf(rs), k) == FirstIn(rs, k)
  {
    if |rs| > 0 {
      var init, last := rs[..|rs| - 1], rs[|rs| - 1];
      FirstInIsFirst(init, k);
      assert rs == init + [last];
      FirstInConcat(init, [last], k);
      assert FirstIn([last], k) == if last.content.Valid? && KeyOf(last.content.event) == k then Some(last.content.event) else None;
      if last.content.Valid? {
        FirstOfConcat(EventsOf(init), [last.content.event], k);
        assert First([last.content.event], k) == FirstIn([last], k);
      }
    }
  }

  // Store the buffered records, then commit the last of them.
  function Flush(p: nat, buffer: seq<Record>): seq<Op> {
    if |buffer| == 0 then [] else [Write(p, buffer), Commit(p, Last(buffer))]
  }

  // What record r sets off when it is poison or fills the buffer.
  function Trigger(p: nat, buffer: seq<Record>, r: Record): seq<Op> {
    if r.content.Poison? then Flush(p, buffer) + [Quarantine(p, r), Commit(p, r)] else Flush(p, buffer + [r])
  }

  // The operations of a crash-free pass over `rest` with `buffer` pending.
  function Plan(p: nat, size: nat, buffer: seq<Record>, rest: seq<Record>): seq<Op>
    decreases |rest|, p, size
  {
    if |rest| == 0 then Flush(p, buffer)
    else if rest[0].content.Poison? || |buffer| + 1 >= size then Trigger(p, buffer, rest[0]) + Plan(p, size, [], rest[1..])
    else Plan(p, size, buffer + [rest[0]], rest[1..])
  }

  // ----- what a plan is, without following the code -----

  // The records an operation takes care of.
  function Handles(op: Op): seq<Record> {
    match op
    case Write(_, batch) => batch
    case Quarantine(_, r) => [r]
    case Commit(_, _) => []
  }

  function HandledBy(ops: seq<Op>): seq<Record> {
    if |ops| == 0 then [] else Handles(ops[0]) + HandledBy(ops[1..])
  }

  lemma {:induction false} HandledByConcat(a: seq<Op>, b: seq<Op>)
    ensures HandledBy(a + b) == HandledBy(a) + HandledBy(b)
  {
    if |a| == 0 {
      assert a + b == b;
    } else {
      assert (a + b)[1..] == a[1..] + b;
      HandledByConcat(a[1..], b);
    }
  }

  ghost predicate AllValid(rs: seq<Record>) {
    |rs| == 0 || (Last(rs).content.Valid? && AllValid(rs[..|rs| - 1]))
  }

  lemma {:induction false} AllValidMember(rs: seq<Record>, i: nat)
    requires AllValid(rs) && i < |rs|
    ensures rs[i].content.Valid?
  {
    if i < |rs| - 1 {
      AllValidMember(rs[..|rs| - 1], i);
    }
  }

  lemma {:induction false} AllValidAppend(rs: seq<Record>, r: Record)
    requires AllValid(rs) && r.content.Valid?
    ensures AllValid(rs + [r])
  {
    assert (rs + [r])[..|rs|] == rs;
  }

  // A batch is never empty nor above the limit and holds only valid records;
  // only poison is quarantined.
  ghost predicate OpFits(op: Op, p: nat, size: nat) {
    && op.partition == p
    && (op.Write? ==> 1 <= |op.batch| <= size && AllValid(op.batch))
    && (op.Quarantine? ==> op.record.content.Poison?)
  }

  ghost predicate OpsFit(ops: seq<Op>, p: nat, size: nat) {
    forall i :: 0 <= i < |ops| ==> OpFits(ops[i], p, size)
  }

  // Operations come in pairs: handle some records, then commit the last of them.
  ghost predicate CommitsFollow(ops: seq<Op>) {
    |ops| == 0 ||
    ( && |ops| >= 2
      && Handles(ops[0]) != []
      && ops[1] == Commit(ops[0].partition, Last(Handles(ops[0])))
      && CommitsFollow(ops[2..]))
  }

  // `ops` takes care of exactly the records `rs`, in order: batches are
  // contiguous and bounded, and each commit names the last record of the
  // operation right before it.
  ghost predicate Covers(ops: seq<Op>, p: nat, size: nat, rs: seq<Record>) {
    HandledBy(ops) == rs && OpsFit(ops, p, size) && CommitsFollow(ops)
  }

  lemma {:induction false} CommitsFollowConcat(a: seq<Op>, b: seq<Op>)
    requires CommitsFollow(a) && CommitsFollow(b)
    ensures CommitsFollow(a + b)
  {
    if |a| == 0 {
      assert a + b == b;
    } else {
      assert (a + b)[2..] == a[2..] + b;
      CommitsFollowConcat(a[2..], b);
    }
  }

  lemma {:induction false} CoversConcat(a: seq<Op>, ra: seq<Record>, b: seq<Op>, rb: seq<Record>, p: nat, size: nat)
    requires Covers(a, p, size, ra) && Covers(b, p, size, rb)
    ensures Covers(a + b, p, size, ra + rb)
  {
    HandledByConcat(a, b);
    CommitsFollowConcat(a, b);
  }

  lemma {:induction false} PairCovers(op: Op, p: nat, size: nat)
    requires OpFits(op, p, size) && !op.Commit?
    ensures Covers([op, Commit(p, Last(Handles(op)))], p, size, Handles(op))
  {
    var ops := [op, Commit(p, Last(Handles(op)))];
    assert ops[1..] == [ops[1]] && ops[2..] == [];
    assert HandledBy(ops[1..]) == [] + HandledBy(ops[1..][1..]);
  }

  lemma {:induction false} FlushCovers(p: nat, size: nat, buffer: seq<Record>)
    requires |buffer| <= size && AllValid(buffer)
    ensures Covers(Flush(p, buffer), p, size, buffer)
  {
    if |buffer| > 0 {
      PairCovers(Write(p, buffer), p, size);
    }
  }

  lemma {:induction false} TriggerCovers(p: nat, size: nat, buffer: seq<Record>, r: Record)
    requires |buffer| < size && AllValid(buffer)
    ensures Covers(Trigger(p, buffer, r), p, size, buffer + [r])
  {
    if r.content.Poison? {
      FlushCovers(p, size, buffer);
      PairCovers(Quarantine(p, r), p, size);
      CoversConcat(Flush(p, buffer), buffer, [Quarantine(p, r), Commit(p, r)], [r], p, size);
    } else {
      AllValidAppend(buffer, r);
      FlushCovers(p, size, buffer + [r]);
    }
  }

  lemma {:induction false} PlanCovers(p: nat, size: nat, buffer: seq<Record>, rest: seq<Record>)
    requires |buffer| < size && AllValid(buffer)
    ensures Covers(Plan(p, size, buffer, rest), p, size, buffer + rest)
    decreases |rest|
  {
    if |rest| == 0 {
      FlushCovers(p, size, buffer);
      assert buffer + rest == buffer;
    } else {
      var r, later := rest[0], rest[1..];
      assert buffer + rest == (buffer + [r]) + later;
      if r.content.Poison? || |buffer| + 1 >= size {
        TriggerCovers(p, size, buffer, r);
        PlanCovers(p, size, [], later);
        assert [] + later == later;
        CoversConcat(Trigger(p, buffer, r), buffer + [r], Plan(p, size, [], later), later, p, size);
      } else {
        AllValidAppend(buffer, r);
        PlanCovers(p, size, buffer + [r], later);
      }
    }
  }

  // A batch is full unless poison or the end of the records follows it; `rs`
  // are the records that `ops` take care of.
  ghost predicate FullBatches(ops: seq<Op>, size: nat, rs: seq<Record>)
    decreases |ops|
  {
    |ops| == 0 ||
    ( && |Handles(ops[0])| <= |rs|
      && (ops[0].Write? ==>
            var n := |ops[0].batch|;
            n == size || n == |rs| || rs[n].content.Poison?)
      && FullBatches(ops[1..], size, rs[|Handles(ops[0])|..]))
  }

  lemma {:induction false} FullPair(op: Op, p: nat, size: nat, rs: seq<Record>, ops: seq<Op>)
    requires op.Write? || op.Quarantine?
    requires |Handles(op)| <= |rs| && FullBatches(ops, size, rs[|Handles(op)|..])
    requires op.Write? ==> |op.batch| == size || |op.batch| == |rs| || rs[|op.batch|].content.Poison?
    ensures forall r :: FullBatches([op, Commit(p, r)] + ops, size, rs)
  {
    forall r ensures FullBatches([op, Commit(p, r)] + ops, size, rs) {
      var all, rest := [op, Commit(p, r)] + ops, rs[|Handles(op)|..];
      assert all[1..] == [Commit(p, r)] + ops && all[1..][1..] == ops;
      assert rest[0..] == rest;
      assert FullBatches(all[1..], size, rest);
    }
  }

  // Poison: what is buffered goes first, whatever its number.
  lemma {:induction false} PoisonFills(p: nat, size: nat, buffer: seq<Record>, r: Record, later: seq<Record>, tail: seq<Op>)
    requires r.content.Poison? && FullBatches(tail, size, later)
    ensures FullBatches(Trigger(p, buffer, r) + tail, size, buffer + ([r] + later))
  {
    var rs, rest := buffer + ([r] + later), [r] + later;
    var quarantine := [Quarantine(p, r), Commit(p, r)] + tail;
    assert rest[1..] == later;
    FullPair(Quarantine(p, r), p, size, rest, tail);
    if |buffer| == 0 {
      assert rs == rest && Trigger(p, buffer, r) + tail == quarantine;
    } else {
      assert rs[|buffer|..] == rest && rs[|buffer|] == r;
      FullPair(Write(p, buffer), p, size, rs, quarantine);
      assert Trigger(p, buffer, r) + tail == [Write(p, buffer), Commit(p, Last(buffer))] + quarantine;
    }
  }

  lemma {:induction false} FlushFills(p: nat, size: nat, batch: seq<Record>, later: seq<Record>, tail: seq<Op>)
    requires |batch| > 0 && (|batch| == size || later == []) && FullBatches(tail, size, later)
    ensures FullBatches(Flush(p, batch) + tail, size, batch + later)
  {
    assert (batch + later)[|batch|..] == later;
    FullPair(Write(p, batch), p, size, batch + later, tail);
  }

  lemma {:induction false} TriggerFills(p: nat, size: nat, buffer: seq<Record>, rest: seq<Record>, tail: seq<Op>)
    requires |buffer| < size && |rest| > 0 && (rest[0].content.Poison? || |buffer| + 1 >= size)
    requires FullBatches(tail, size, rest[1..])
    ensures FullBatches(Trigger(p, buffer, rest[0]) + tail, size, buffer + rest)
  {
    var r, later := rest[0], rest[1..];
    assert rest == [r] + later;
    if r.content.Poison? {
      PoisonFills(p, size, buffer, r, later, tail);
    } else {
      FlushFills(p, size, buffer + [r], later, tail);
      assert buffer + rest == buffer + [r] + later;
    }
  }

  lemma {:induction false} LastFills(p: nat, size: nat, buffer: seq<Record>, rest: seq<Record>)
    requires |rest| == 0
    ensures FullBatches(Flush(p, buffer), size, buffer + rest)
  {
    if |buffer| > 0 {
      FlushFills(p, size, buffer, [], []);
      assert Flush(p, buffer) + [] == Flush(p, buffer) && buffer + rest == buffer + [];
    }
  }

  lemma {:induction false} PlanFills(p: nat, size: nat, buffer: seq<Record>, rest: seq<Record>)
    requires |buffer| < size
    ensures FullBatches(Plan(p, size, buffer, rest), size, buffer + rest)
    decreases |rest|
  {
    if |rest| == 0 {
      LastFills(p, size, buffer, rest);
    } else if rest[0].content.Poison? || |buffer| + 1 >= size {
      var later := rest[1..];
      PlanFills(p, size, [], later);
      assert [] + later == later;
      TriggerFills(p, size, buffer, rest, Plan(p, size, [], later));
    } else {
      PlanFills(p, size, buffer + [rest[0]], rest[1..]);
      assert buffer + rest == buffer + [rest[0]] + rest[1..];
    }
  }

  // Offsets strictly increase.
  ghost predicate Increasing(rs: seq<Record>) {
    |rs| <= 1 || (Increasing(rs[..|rs| - 1]) && rs[|rs| - 2].offset < rs[|rs| - 1].offset)
  }

  lemma {:induction false} IncreasingPairs(rs: seq<Record>)
    ensures Increasing(rs) <==> forall i, j :: 0 <= i < j < |rs| ==> rs[i].offset < rs[j].offset
  {
    if |rs| > 1 {
      var init := rs[..|rs| - 1];
      IncreasingPairs(init);
      if Increasing(rs) {
        forall i, j | 0 <= i < j < |rs| ensures rs[i].offset < rs[j].offset {
          if j == |rs| - 1 && i < |rs| - 2 {
            assert init[i].offset < init[|rs| - 2].offset;
          }
        }
      }
      if forall i, j :: 0 <= i < j < |rs| ==> rs[i].offset < rs[j].offset {
        forall i, j | 0 <= i < j < |init| ensures init[i].offset < init[j].offset {
          assert rs[i].offset < rs[j].offset;
        }
      }
    }
  }

  function CommitsIn(ops: seq<Op>): seq<Record> {
    if |ops| == 0 then []
    else (if ops[0].Commit? then [ops[0].record] else []) + CommitsIn(ops[1..])
  }

  lemma {:induction false} HandledByPair(ops: seq<Op>)
    requires ops != [] && CommitsFollow(ops)
    ensures HandledBy(ops) == Handles(ops[0]) + HandledBy(ops[2..])
    ensures CommitsIn(ops) == [Last(Handles(ops[0]))] + CommitsIn(ops[2..])
  {
    var tail := ops[1..];
    assert tail[1..] == ops[2..];
    assert Handles(tail[0]) == [];
    assert HandledBy(tail) == HandledBy(ops[2..]);
    assert !ops[0].Commit?;
    assert CommitsIn(ops) == CommitsIn(tail);
  }

  lemma {:induction false} IncreasingConcat(a: seq<Record>, b: seq<Record>)
    requires Increasing(a + b)
    ensures Increasing(b)
    ensures forall i, j :: 0 <= i < |a| && 0 <= j < |b| ==> a[i].offset < b[j].offset
  {
    IncreasingPairs(a + b);
    IncreasingPairs(b);
    forall i | 0 <= i < |a| ensures (a + b)[i] == a[i] {}
    forall j | 0 <= j < |b| ensures (a + b)[|a| + j] == b[j] {}
  }

  // Commits taken from handled records, in order, up to the very last one.
  ghost predicate CommitsWithin(commits: seq<Record>, handled: seq<Record>) {
    && Increasing(commits)
    && (forall i :: 0 <= i < |commits| ==> commits[i] in handled)
    && (handled != [] ==> commits != [] && Last(commits) == Last(handled))
  }

  lemma {:induction false} CommitsWithinStep(head: seq<Record>, tail: seq<Record>, commits: seq<Record>)
    requires head != [] && Increasing(head + tail) && CommitsWithin(commits, tail)
    ensures CommitsWithin([Last(head)] + commits, head + tail)
  {
    IncreasingConcat(head, tail);
    IncreasingPairs(commits);
    IncreasingPairs([Last(head)] + commits);
    forall i | 0 <= i < |commits| ensures Last(head).offset < commits[i].offset {
      assert commits[i] in tail;
      var j :| 0 <= j < |tail| && tail[j] == commits[i];
    }
  }

  // Offsets are committed in strictly increasing order, each after the record
  // it names was handled, and the last commit is the last record.
  lemma {:induction false} CommitsIncrease(ops: seq<Op>)
    requires CommitsFollow(ops)
    requires Increasing(HandledBy(ops))
    ensures CommitsWithin(CommitsIn(ops), HandledBy(ops))
  {
    if |ops| > 0 {
      HandledByPair(ops);
      IncreasingConcat(Handles(ops[0]), HandledBy(ops[2..]));
      CommitsIncrease(ops[2..]);
      CommitsWithinStep(Handles(ops[0]), HandledBy(ops[2..]), CommitsIn(ops[2..]));
    }
  }

  // ----- traces of a running reader -----

  datatype Fetch = Fetch(partition: nat, records: seq<Record>)

  // The partitions of one poll are processed one after the other.
  function PlanOf(size: nat, fetches: seq<Fetch>): seq<Op> {
    if |fetches| == 0 then []
    else Plan(fetches[0].partition, size, [], fetches[0].records) + PlanOf(size, fetches[1..])
  }

  // What a reader does that others can see: a poll, or one call to the store,
  // the quarantine topic or the group coordinator with its reported outcome.
  datatype Event = Polled(fetches: seq<Fetch>) | Called(op: Op, ok: bool)

  // The rest of the current poll's plan; a stopped reader does nothing more.
  datatype Local = Working(plan: seq<Op>) | Stopped

  predicate Enabled(l: Local, ev: Event) {
    l.Working? &&
    match ev
    case Polled(_) => l.plan == []
    case Called(op, _) => l.plan != [] && op == l.plan[0]
  }

  // Only a failed write may be tried again; any other failure is the end.
  function Next(size: nat, l: Local, ev: Event): Local
    requires Enabled(l, ev)
  {
    match ev
    case Polled(fetches) => Working(PlanOf(size, fetches))
    case Called(op, ok) =>
      if ok then Working(l.plan[1..]) else if op.Write? then l else Stopped
  }

  function Replay(size: nat, start: Local, evs: seq<Event>): Option<Local> {
    if |evs| == 0 then Some(start)
    else
      var l := Replay(size, start, evs[..|evs| - 1]);
      if l.Some? && Enabled(l.value, Last(evs)) then Some(Next(size, l.value, Last(evs))) else None
  }

  // The operations that were reported as successful.
  function Succeeded(evs: seq<Event>): seq<Op> {
    if |evs| == 0 then []
    else Succeeded(evs[..|evs| - 1]) + if Last(evs).Called? && Last(evs).ok then [Last(evs).op] else []
  }

  ghost predicate OnlyCalls(evs: seq<Event>) {
    forall i :: 0 <= i < |evs| ==> evs[i].Called?
  }

  // `calls` got through a prefix of `plan`, and `now` is what is left of it.
  // Only a failed quarantine or commit stops the reader.
  ghost predicate Progress(plan: seq<Op>, calls: seq<Event>, now: Local) {
    match now
    case Working(left) => plan == Succeeded(calls) + left
    case Stopped => calls != [] && Last(calls).Called? && !Last(calls).ok && !Last(calls).op.Write? && Succeeded(calls) < plan
  }

  lemma {:induction false} ReplayInit(size: nat, start: Local, before: seq<Event>, calls: seq<Event>)
    requires calls != [] && Replay(size, start, before + calls).Some?
    ensures var prior := Replay(size, start, before + calls[..|calls| - 1]);
            && prior.Some? && Enabled(prior.value, Last(calls))
            && Replay(size, start, before + calls).value == Next(size, prior.value, Last(calls))
  {
    assert (before + calls)[..|before + calls| - 1] == before + calls[..|calls| - 1];
    assert Last(before + calls) == Last(calls);
  }

  // Between two polls, whatever fails: the acknowledged operations are a prefix
  // of the plan, and the rest is still to do.
  lemma {:induction false} CallsMakeProgress(size: nat, start: Local, before: seq<Event>, calls: seq<Event>)
    requires OnlyCalls(calls)
    requires Replay(size, start, before).Some? && Replay(size, start, before).value.Working?
    requires Replay(size, start, before + calls).Some?
    ensures Progress(Replay(size, start, before).value.plan, calls, Replay(size, start, before + calls).value)
    decreases |calls|
  {
    if |calls| == 0 {
      assert before + calls == before;
    } else {
      ReplayInit(size, start, before, calls);
      CallsMakeProgress(size, start, before, calls[..|calls| - 1]);
    }
  }

  // Every call made is the first operation of the plan not yet acknowledged.
  lemma {:induction false} CallsFollowPlan(size: nat, start: Local, before: seq<Event>, calls: seq<Event>, i: nat)
    requires OnlyCalls(calls) && i < |calls|
    requires Replay(size, start, before).Some? && Replay(size, start, before).value.Working?
    requires Replay(size, start, before + calls).Some?
    ensures var plan, done := Replay(size, start, before).value.plan, Succeeded(calls[..i]);
            done < plan && calls[i].op == plan[|done|]
    decreases |calls|
  {
    ReplayInit(size, start, before, calls);
    if i < |calls| - 1 {
      CallsFollowPlan(size, start, before, calls[..|calls| - 1], i);
      assert calls[..|calls| - 1][..i] == calls[..i];
    } else {
      CallsMakeProgress(size, start, before, calls[..i]);
    }
  }

  lemma {:induction false} CommitsInConcat(a: seq<Op>, b: seq<Op>)
    ensures CommitsIn(a + b) == CommitsIn(a) + CommitsIn(b)
  {
    if |a| == 0 {
      assert a + b == b;
    } else {
      assert (a + b)[0] == a[0] && (a + b)[1..] == a[1..] + b;
      CommitsInConcat(a[1..], b);
    }
  }

  lemma {:induction false} CommitIsAfterItsRecord(ops: seq<Op>, i: nat)
    requires CommitsFollow(ops) && i < |ops| && ops[i].Commit?
    ensures 0 < i && Handles(ops[i - 1]) != [] && ops[i].record == Last(Handles(ops[i - 1]))
  {
    if i >= 2 {
      CommitIsAfterItsRecord(ops[2..], i - 2);
    }
  }

  lemma {:induction false} PlanEndsWithCommit(p: nat, size: nat, buffer: seq<Record>, rest: seq<Record>)
    requires buffer + rest != []
    ensures Plan(p, size, buffer, rest) != [] && Last(Plan(p, size, buffer, rest)) == Commit(p, Last(buffer + rest))
    decreases |rest|
  {
    if |rest| == 0 {
      assert buffer + rest == buffer;
    } else {
      var kept := if rest[0].content.Poison? || |buffer| + 1 >= size then [] else buffer + [rest[0]];
      if kept + rest[1..] != [] {
        PlanEndsWithCommit(p, size, kept, rest[1..]);
        assert Last(kept + rest[1..]) == Last(buffer + rest);
      }
    }
  }

  lemma {:induction false} IncreasingPrefix(a: seq<Record>, b: seq<Record>)
    requires Increasing(a + b)
    ensures Increasing(a)
  {
    IncreasingPairs(a + b);
    forall i | 0 <= i < |a| ensures (a + b)[i] == a[i] {}
    IncreasingPairs(a);
  }

  ghost predicate CommitsInOrder(ops: seq<Op>) {
    && Increasing(CommitsIn(ops))
    && forall i :: 0 <= i < |ops| && ops[i].Commit? ==>
         0 < i && Handles(ops[i - 1]) != [] && ops[i].record == Last(Handles(ops[i - 1]))
  }

  lemma {:induction false} PrefixOfCover(plan: seq<Op>, size: nat, p: nat, records: seq<Record>, done: seq<Op>)
    requires Increasing(records) && Covers(plan, p, size, records) && done <= plan
    ensures HandledBy(done) <= records && OpsFit(done, p, size) && CommitsInOrder(done)
  {
    var left := plan[|done|..];
    assert plan == done + left;
    HandledByConcat(done, left);
    CommitsInConcat(done, left);
    CommitsIncrease(plan);
    IncreasingPrefix(CommitsIn(done), CommitsIn(left));
    forall i | 0 <= i < |done| && done[i].Commit?
      ensures 0 < i && Handles(done[i - 1]) != [] && done[i].record == Last(Handles(done[i - 1]))
    {
      CommitIsAfterItsRecord(plan, i);
    }
  }

  // What a pass over `records` has done after the acknowledged operations `done`.
  ghost predicate PassEffects(done: seq<Op>, finished: bool, p: nat, size: nat, records: seq<Record>) {
    && HandledBy(done) <= records
    && OpsFit(done, p, size)
    && CommitsInOrder(done)
    && (finished ==> HandledBy(done) == records)
    && (finished && records != [] ==> done != [] && Last(done) == Commit(p, Last(records)))
  }

  // A plan for all the records of a partition, up to the commit of the last.
  ghost predicate PassPlan(plan: seq<Op>, p: nat, size: nat, records: seq<Record>) {
    Covers(plan, p, size, records) && (records != [] ==> plan != [] && Last(plan) == Commit(p, Last(records)))
  }

  lemma {:induction false} PlanIsPassPlan(p: nat, size: nat, records: seq<Record>)
    requires size >= 1
    ensures PassPlan(Plan(p, size, [], records), p, size, records)
  {
    assert [] + records == records;
    PlanCovers(p, size, [], records);
    if |records| > 0 {
      PlanEndsWithCommit(p, size, [], records);
    }
  }

  lemma {:induction false} PrefixOfPlan(plan: seq<Op>, p: nat, size: nat, records: seq<Record>, done: seq<Op>)
    requires Increasing(records) && PassPlan(plan, p, size, records) && done <= plan
    ensures PassEffects(done, done == plan, p, size, records)
  {
    PrefixOfCover(plan, size, p, records, done);
  }

  // The share of the acknowledged operations that belongs to the first n.
  function Share(done: seq<Op>, n: nat): seq<Op> {
    if |done| <= n then done else done[..n]
  }

  // One pass over a partition, for every list of records, every pattern of
  // store, quarantine and commit failures and whatever the poll holds after
  // it: what was acknowledged for this partition handles a prefix of its
  // records, commits strictly increase, each commit comes right after the
  // operation it covers, and a finished pass has handled every record and
  // committed the last one.
  lemma {:induction false} PartitionPassEffects(size: nat, before: seq<Event>, calls: seq<Event>,
                                                p: nat, records: seq<Record>, rest: seq<Op>)
    requires size >= 1 && OnlyCalls(calls) && Increasing(records)
    requires Replay(size, Working([]), before) == Some(Working(Plan(p, size, [], records) + rest))
    requires Replay(size, Working([]), before + calls).Some?
    ensures var n := |Plan(p, size, [], records)|;
            PassEffects(Share(Succeeded(calls), n), |Succeeded(calls)| >= n, p, size, records)
  {
    var plan, done := Plan(p, size, [], records), Succeeded(calls);
    CallsMakeProgress(size, Working([]), before, calls);
    assert done <= plan + rest;
    var own := Share(done, |plan|);
    assert own <= plan && (|done| >= |plan| ==> own == plan);
    PlanIsPassPlan(p, size, records);
    PrefixOfPlan(plan, p, size, records, own);
  }

  lemma {:induction false} SucceededConcat(a: seq<Event>, b: seq<Event>)
    ensures Succeeded(a + b) == Succeeded(a) + Succeeded(b)
    decreases |b|
  {
    if |b| == 0 {
      assert a + b == a;
    } else {
      assert (a + b)[..|a + b| - 1] == a + b[..|b| - 1];
      SucceededConcat(a, b[..|b| - 1]);
    }
  }
}
