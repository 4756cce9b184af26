/**
  * The delivery protocol: partition logs, committed offsets, the events table,
  * the quarantine topic and any number of readers that may overlap, fail and be
  * replaced at any moment.
  */
module Delivery {
  import opened Basics
  import opened EventTable
  import opened ReaderPlan
  import opened Chains

  // A record's partition is a function of its key.
  datatype Config = Config(partitions: nat, size: nat, route: Key -> nat) {
    ghost predicate Valid() {
      size >= 1 && forall k :: route(k) < partitions
    }
  }

  datatype Quarantined = Quarantined(partition: nat, record: Record)

  // `pos` is where the next poll of each assigned partition starts.
  datatype Reader = Reader(pos: map<nat, nat>, local: Local)

  // `flight` holds requests that were reported as failed: each of them may
  // still take effect, once or more, at any later time, or never.
  datatype State = State(
    logs: seq<seq<Record>>,
    committed: seq<nat>,
    table: Table,
    dlq: seq<Quarantined>,
    readers: map<nat, Reader>,
    flight: set<Op>)

  datatype Step =
    | Publish(p: nat, record: Record)
    | Join(r: nat)
    | Assign(r: nat, p: nat)
    | Revoke(r: nat, p: nat)
    | Poll(r: nat, fetches: seq<Fetch>)
    | Invoke(r: nat, op: Op, ok: bool)
    | Land(op: Op)
    | Crash(r: nat)

  function Init(c: Config): State {
    State(seq(c.partitions, _ => []), seq(c.partitions, _ => 0), map[], [], map[], {})
  }

  // The offset after the last record; offsets may have gaps.
  function EndOffset(log: seq<Record>): nat {
    if |log| == 0 then 0 else Last(log).offset + 1
  }

  // The number of records before offset o.
  function Below(log: seq<Record>, o: nat): (n: nat)
    ensures n <= |log|
  {
    if |log| == 0 then 0
    else if Last(log).offset < o then |log|
    else Below(log[..|log| - 1], o)
  }

  function Advance(pos: map<nat, nat>, f: Fetch): map<nat, nat> {
    if |f.records| == 0 then pos else pos[f.partition := Last(f.records).offset + 1]
  }

  function AdvanceAll(pos: map<nat, nat>, fetches: seq<Fetch>): map<nat, nat>
    decreases |fetches|
  {
    if |fetches| == 0 then pos else AdvanceAll(Advance(pos, fetches[0]), fetches[1..])
  }

  // The records rs sit in the log from index i on.
  predicate At(log: seq<Record>, i: nat, rs: seq<Record>)
    decreases |rs|, i
  {
    && i + |rs| <= |log|
    && (|rs| == 0 || (Last(rs) == log[i + |rs| - 1] && At(log, i, rs[..|rs| - 1])))
  }

  // A poll returns, for assigned partitions, contiguous runs of records that
  // start at the reader's position.
  predicate Fetched(logs: seq<seq<Record>>, pos: map<nat, nat>, fetches: seq<Fetch>)
    decreases |fetches|
  {
    |fetches| == 0 ||
    var f := fetches[0];
    && f.partition in pos && f.partition < |logs|
    && At(logs[f.partition], Below(logs[f.partition], pos[f.partition]), f.records)
    && Fetched(logs, Advance(pos, f), fetches[1..])
  }

  predicate Idle(s: State, r: nat) {
    r in s.readers && s.readers[r].local == Working([])
  }

  predicate Enabled(c: Config, s: State, step: Step) {
    match step
    case Publish(p, record) =>
      && p < |s.logs| && EndOffset(s.logs[p]) <= record.offset
      && (record.content.Valid? ==> c.route(KeyOf(record.content.event)) == p)
    case Join(r) => r !in s.readers
    case Assign(r, p) => Idle(s, r) && p < |s.committed|
    case Revoke(r, _) => Idle(s, r)
    case Poll(r, fetches) => Idle(s, r) && Fetched(s.logs, s.readers[r].pos, fetches)
    case Invoke(r, op, ok) => r in s.readers && ReaderPlan.Enabled(s.readers[r].local, Called(op, ok))
    case Land(op) => op in s.flight
    case Crash(r) => r in s.readers
  }

  // What a request does when it reaches its target.
  function Effect(s: State, op: Op): State {
    match op
    case Write(_, batch) => s.(table := InsertAll(s.table, EventsOf(batch)))
    case Quarantine(p, record) => s.(dlq := s.dlq + [Quarantined(p, record)])
    case Commit(p, record) =>
      if p < |s.committed| then s.(committed := s.committed[p := record.offset + 1]) else s
  }

  function Next(c: Config, s: State, step: Step): State
    requires Enabled(c, s, step)
  {
    match step
    case Publish(p, record) => s.(logs := s.logs[p := s.logs[p] + [record]])
    case Join(r) => s.(readers := s.readers[r := Reader(map[], Working([]))])
    case Assign(r, p) =>
      s.(readers := s.readers[r := s.readers[r].(pos := s.readers[r].pos[p := s.committed[p]])])
    case Revoke(r, p) =>
      s.(readers := s.readers[r := s.readers[r].(pos := s.readers[r].pos - {p})])
    case Poll(r, fetches) =>
      var rd := s.readers[r];
      s.(readers := s.readers[r := Reader(AdvanceAll(rd.pos, fetches), ReaderPlan.Next(c.size, rd.local, Polled(fetches)))])
    case Invoke(r, op, ok) =>
      var rd := s.readers[r];
      var t := s.(readers := s.readers[r := rd.(local := ReaderPlan.Next(c.size, rd.local, Called(op, ok)))]);
      if ok then Effect(t, op) else t.(flight := t.flight + {op})
    case Land(op) => Effect(s, op)
    case Crash(r) => s.(readers := s.readers - {r})
  }

  function Run(c: Config, s: State, steps: seq<Step>): Option<State> {
    if |steps| == 0 then Some(s)
    else
      var t := Run(c, s, steps[..|steps| - 1]);
      if t.Some? && Enabled(c, t.value, Last(steps)) then Some(Next(c, t.value, Last(steps))) else None
  }

  lemma {:induction false} RunConcat(c: Config, s: State, a: seq<Step>, b: seq<Step>)
    requires Run(c, s, a).Some?
    ensures Run(c, s, a + b) == Run(c, Run(c, s, a).value, b)
    decreases |b|
  {
    if |b| == 0 {
      assert a + b == a;
    } else {
      assert (a + b)[..|a + b| - 1] == a + b[..|b| - 1];
      RunConcat(c, s, a, b[..|b| - 1]);
    }
  }

  // A run that gets to its end gets to every point before it.
  lemma {:induction false} RunSplits(c: Config, s: State, steps: seq<Step>, n: nat)
    requires n <= |steps| && Run(c, s, steps).Some?
    ensures Run(c, s, steps[..n]).Some? && Run(c, Run(c, s, steps[..n]).value, steps[n..]) == Run(c, s, steps)
    ensures n < |steps| ==> Enabled(c, Run(c, s, steps[..n]).value, steps[n])
    decreases |steps|
  {
    if n == |steps| {
      assert steps[..n] == steps && steps[n..] == [];
    } else {
      var init := steps[..|steps| - 1];
      RunSplits(c, s, init, n);
      assert init[..n] == steps[..n] && steps[n..][..|steps| - n - 1] == init[n..] && Last(steps[n..]) == Last(steps);
      assert n < |init| ==> init[n] == steps[n];
    }
  }

  // ----- offsets and indices -----

  lemma {:induction false} BelowSplits(log: seq<Record>, o: nat)
    requires Increasing(log)
    ensures Below(log, o) <= |log|
    ensures forall i :: 0 <= i < |log| ==> (i < Below(log, o) <==> log[i].offset < o)
  {
    if |log| > 0 {
      BelowSplits(log[..|log| - 1], o);
      IncreasingPairs(log);
    }
  }

  lemma {:induction false} BelowIndex(log: seq<Record>, i: nat)
    requires Increasing(log) && i < |log|
    ensures Below(log, log[i].offset) == i && Below(log, log[i].offset + 1) == i + 1
  {
    BelowSplits(log, log[i].offset);
    BelowSplits(log, log[i].offset + 1);
    IncreasingPairs(log);
    var b := Below(log, log[i].offset);
    assert b < |log| ==> log[b].offset >= log[i].offset;
    assert i + 1 < |log| ==> log[i].offset < log[i + 1].offset;
  }

  lemma {:induction false} BelowAppend(log: seq<Record>, r: Record, o: nat)
    requires o <= r.offset
    ensures Below(log + [r], o) == Below(log, o)
  {
    assert (log + [r])[..|log|] == log;
  }

  // ----- the frontier -----

  // For each partition, how many of its records have been handled by anyone.
  type Frontier = seq<nat>

  // The records that an operation names.
  function Named(op: Op): seq<Record> {
    if op.Commit? then [op.record] else Handles(op)
  }

  // A request is safe when its records sit in the log right there and start at
  // or before the frontier; a commit only names a handled record.
  ghost predicate OpSafe(logs: seq<seq<Record>>, h: Frontier, op: Op) {
    && op.partition < |logs| == |h|
    && Named(op) != []
    && (op.Write? ==> AllValid(op.batch))
    && (op.Quarantine? ==> op.record.content.Poison?)
    && var log, p := logs[op.partition], op.partition;
       var at := Below(log, Named(op)[0].offset);
       At(log, at, Named(op)) && at + (if op.Commit? then 1 else 0) <= h[p]
  }

  // The frontier once a safe operation has taken effect.
  function Raise(logs: seq<seq<Record>>, h: Frontier, op: Op): Frontier {
    if op.partition >= |logs| || |h| != |logs| || Handles(op) == [] then h
    else
      var end := Below(logs[op.partition], Handles(op)[0].offset) + |Handles(op)|;
      h[op.partition := Max(h[op.partition], end)]
  }

  function RaiseIn(logs: seq<seq<Record>>): (Frontier, Op) -> Frontier {
    (h, op) => Raise(logs, h, op)
  }

  ghost function SafeIn(logs: seq<seq<Record>>): (Frontier, Op) -> bool {
    (h, op) => OpSafe(logs, h, op)
  }

  function RaiseAll(logs: seq<seq<Record>>, h: Frontier, plan: seq<Op>): Frontier {
    After(RaiseIn(logs), h, plan)
  }

  // Each operation is safe by the time the ones before it have taken effect.
  ghost predicate PlanSafe(logs: seq<seq<Record>>, h: Frontier, plan: seq<Op>) {
    Safe(SafeIn(logs), RaiseIn(logs), h, plan)
  }

  ghost predicate Leq(h: Frontier, g: Frontier) {
    |h| == |g| && forall p :: 0 <= p < |h| ==> h[p] <= g[p]
  }

  lemma {:induction false} RaiseAllGrows(logs: seq<seq<Record>>, h: Frontier, plan: seq<Op>)
    ensures Leq(h, RaiseAll(logs, h, plan))
  {
    AfterRelated((a, b) => Leq(a, b), RaiseIn(logs), h, plan);
  }

  lemma {:induction false} RaiseMonotone(logs: seq<seq<Record>>, h: Frontier, g: Frontier, op: Op)
    requires Leq(h, g)
    ensures Leq(Raise(logs, h, op), Raise(logs, g, op))
    ensures OpSafe(logs, h, op) ==> OpSafe(logs, g, op)
  {
  }

  // What was safe stays safe as other readers make progress.
  lemma {:induction false} PlanSafeMonotone(logs: seq<seq<Record>>, h: Frontier, g: Frontier, plan: seq<Op>)
    requires Leq(h, g)
    ensures PlanSafe(logs, h, plan) ==> PlanSafe(logs, g, plan)
    ensures Leq(RaiseAll(logs, h, plan), RaiseAll(logs, g, plan))
  {
    forall a, b, op | Leq(a, b)
      ensures Leq(Raise(logs, a, op), Raise(logs, b, op)) && (OpSafe(logs, a, op) ==> OpSafe(logs, b, op))
    {
      RaiseMonotone(logs, a, b, op);
    }
    SafeMonotone((a, b) => Leq(a, b), SafeIn(logs), RaiseIn(logs), h, g, plan);
  }

  lemma {:induction false} PlanSafeConcat(logs: seq<seq<Record>>, h: Frontier, a: seq<Op>, b: seq<Op>)
    requires PlanSafe(logs, h, a) && PlanSafe(logs, RaiseAll(logs, h, a), b)
    ensures PlanSafe(logs, h, a + b)
    ensures RaiseAll(logs, h, a + b) == RaiseAll(logs, RaiseAll(logs, h, a), b)
  {
    SafeConcat(SafeIn(logs), RaiseIn(logs), h, a, b);
  }

  // The last record of a safe operation may be committed after it.
  lemma {:induction false} CommitSafe(logs: seq<seq<Record>>, h: Frontier, op: Op)
    requires op.partition < |logs| && Increasing(logs[op.partition])
    requires !op.Commit? && OpSafe(logs, h, op)
    ensures OpSafe(logs, Raise(logs, h, op), Commit(op.partition, Last(Handles(op))))
  {
    var log, rs := logs[op.partition], Handles(op);
    BelowIndex(log, Below(log, rs[0].offset) + |rs| - 1);
    assert [Last(rs)][..0] == [];
  }

  lemma {:induction false} PairSafe(logs: seq<seq<Record>>, h: Frontier, op: Op)
    requires op.partition < |logs| && Increasing(logs[op.partition])
    requires !op.Commit? && OpSafe(logs, h, op)
    ensures PlanSafe(logs, h, [op, Commit(op.partition, Last(Handles(op)))])
    ensures RaiseAll(logs, h, [op, Commit(op.partition, Last(Handles(op)))]) == Raise(logs, h, op)
  {
    CommitSafe(logs, h, op);
    SafePair(SafeIn(logs), RaiseIn(logs), h, op, Commit(op.partition, Last(Handles(op))));
  }

  lemma {:induction false} AtSlice(log: seq<Record>, at: nat, rs: seq<Record>)
    requires at + |rs| <= |log|
    ensures At(log, at, rs) <==> log[at..at + |rs|] == rs
    decreases |rs|
  {
    if |rs| > 0 {
      var init := rs[..|rs| - 1];
      AtSlice(log, at, init);
      assert rs == init + [Last(rs)];
      assert log[at..at + |rs|] == log[at..at + |init|] + [log[at + |init|]];
    }
  }

  lemma {:induction false} AtIndex(log: seq<Record>, at: nat, rs: seq<Record>)
    requires Increasing(log) && At(log, at, rs) && |rs| > 0
    ensures log[at] == rs[0] && Below(log, rs[0].offset) == at
  {
    AtSlice(log, at, rs);
    assert log[at] == log[at..at + |rs|][0];
    BelowIndex(log, at);
  }

  lemma {:induction false} AtParts(log: seq<Record>, at: nat, a: seq<Record>, b: seq<Record>)
    requires At(log, at, a + b)
    ensures At(log, at, a) && At(log, at + |a|, b)
  {
    AtSlice(log, at, a + b);
    AtSlice(log, at, a);
    AtSlice(log, at + |a|, b);
    assert log[at..at + |a|] == log[at..at + |a + b|][..|a|] == (a + b)[..|a|] == a;
    assert log[at + |a|..at + |a| + |b|] == log[at..at + |a + b|][|a|..] == (a + b)[|a|..] == b;
  }

  lemma {:induction false} AtJoin(log: seq<Record>, at: nat, a: seq<Record>, b: seq<Record>)
    requires At(log, at, a) && At(log, at + |a|, b)
    ensures At(log, at, a + b)
  {
    AtSlice(log, at, a);
    AtSlice(log, at + |a|, b);
    AtSlice(log, at, a + b);
    assert log[at..at + |a| + |b|] == log[at..at + |a|] + log[at + |a|..at + |a| + |b|];
  }

  // `plan` is safe from frontier h and carries partition p up to `end`.
  ghost predicate Carries(logs: seq<seq<Record>>, h: Frontier, plan: seq<Op>, p: nat, end: nat) {
    && p < |logs| == |h| && PlanSafe(logs, h, plan)
    && |RaiseAll(logs, h, plan)| == |logs| && end <= RaiseAll(logs, h, plan)[p]
  }

  lemma {:induction false} CarriesConcat(logs: seq<seq<Record>>, h: Frontier, a: seq<Op>, b: seq<Op>, p: nat, end: nat)
    requires PlanSafe(logs, h, a) && Carries(logs, RaiseAll(logs, h, a), b, p, end)
    ensures Carries(logs, h, a + b, p, end)
  {
    PlanSafeConcat(logs, h, a, b);
  }

  lemma {:induction false} FlushCarries(logs: seq<seq<Record>>, h: Frontier, p: nat, buffer: seq<Record>, at: nat)
    requires p < |logs| == |h| && Increasing(logs[p])
    requires AllValid(buffer) && At(logs[p], at, buffer) && at <= h[p]
    ensures Carries(logs, h, Flush(p, buffer), p, at + |buffer|)
  {
    if |buffer| > 0 {
      AtIndex(logs[p], at, buffer);
      PairSafe(logs, h, Write(p, buffer));
    }
  }

  lemma {:induction false} PoisonCarries(logs: seq<seq<Record>>, h: Frontier, p: nat, r: Record, at: nat)
    requires p < |logs| == |h| && Increasing(logs[p])
    requires r.content.Poison? && At(logs[p], at, [r]) && at <= h[p]
    ensures Carries(logs, h, [Quarantine(p, r), Commit(p, r)], p, at + 1)
  {
    AtIndex(logs[p], at, [r]);
    PairSafe(logs, h, Quarantine(p, r));
  }

  lemma {:induction false} TriggerCarries(logs: seq<seq<Record>>, h: Frontier, p: nat, buffer: seq<Record>, r: Record, at: nat)
    requires p < |logs| == |h| && Increasing(logs[p]) && AllValid(buffer)
    requires At(logs[p], at, buffer) && At(logs[p], at + |buffer|, [r]) && at <= h[p]
    ensures Carries(logs, h, Trigger(p, buffer, r), p, at + |buffer| + 1)
  {
    if r.content.Poison? {
      FlushCarries(logs, h, p, buffer, at);
      PoisonCarries(logs, RaiseAll(logs, h, Flush(p, buffer)), p, r, at + |buffer|);
      CarriesConcat(logs, h, Flush(p, buffer), [Quarantine(p, r), Commit(p, r)], p, at + |buffer| + 1);
    } else {
      AtJoin(logs[p], at, buffer, [r]);
      AllValidAppend(buffer, r);
      FlushCarries(logs, h, p, buffer + [r], at);
    }
  }

  lemma {:induction false} AtStep(log: seq<Record>, at: nat, buffer: seq<Record>, rest: seq<Record>)
    requires |rest| > 0 && At(log, at, buffer) && At(log, at + |buffer|, rest)
    ensures At(log, at + |buffer|, [rest[0]]) && At(log, at, buffer + [rest[0]])
    ensures At(log, at + |buffer| + 1, rest[1..]) && At(log, at + |buffer| + 1, [])
  {
    assert rest == [rest[0]] + rest[1..];
    AtParts(log, at + |buffer|, [rest[0]], rest[1..]);
    AtJoin(log, at, buffer, [rest[0]]);
  }

  // The next records of partition p are `buffer` and then `rest`.
  ghost predicate Upcoming(logs: seq<seq<Record>>, h: Frontier, p: nat, buffer: seq<Record>, rest: seq<Record>, at: nat) {
    && p < |logs| == |h| && Increasing(logs[p]) && AllValid(buffer)
    && At(logs[p], at, buffer) && At(logs[p], at + |buffer|, rest) && at <= h[p]
  }

  lemma {:induction false} UpcomingGrows(logs: seq<seq<Record>>, h: Frontier, p: nat, buffer: seq<Record>, rest: seq<Record>, at: nat)
    requires Upcoming(logs, h, p, buffer, rest, at) && |rest| > 0 && rest[0].content.Valid?
    ensures Upcoming(logs, h, p, buffer + [rest[0]], rest[1..], at)
  {
    AllValidAppend(buffer, rest[0]);
    AtStep(logs[p], at, buffer, rest);
  }

  lemma {:induction false} UpcomingTriggers(logs: seq<seq<Record>>, h: Frontier, p: nat, buffer: seq<Record>, rest: seq<Record>, at: nat)
    requires Upcoming(logs, h, p, buffer, rest, at) && |rest| > 0
    ensures PlanSafe(logs, h, Trigger(p, buffer, rest[0]))
    ensures Upcoming(logs, RaiseAll(logs, h, Trigger(p, buffer, rest[0])), p, [], rest[1..], at + |buffer| + 1)
  {
    AtStep(logs[p], at, buffer, rest);
    TriggerCarries(logs, h, p, buffer, rest[0], at);
  }

  // The plan for records that start at or before the frontier is safe, and
  // carries the frontier past them.
  lemma {:induction false} PlanCarries(
    logs: seq<seq<Record>>, h: Frontier, p: nat, size: nat, buffer: seq<Record>, rest: seq<Record>, at: nat)
    requires Upcoming(logs, h, p, buffer, rest, at)
    ensures Carries(logs, h, Plan(p, size, buffer, rest), p, at + |buffer| + |rest|)
    decreases |rest|
  {
    if |rest| == 0 {
      FlushCarries(logs, h, p, buffer, at);
    } else if rest[0].content.Poison? || |buffer| + 1 >= size {
      var first, later := Trigger(p, buffer, rest[0]), rest[1..];
      var next: nat, tail := at + |buffer| + 1, Plan(p, size, [], later);
      UpcomingTriggers(logs, h, p, buffer, rest, at);
      PlanCarries(logs, RaiseAll(logs, h, first), p, size, [], later, next);
      CarriesConcat(logs, h, first, tail, p, next + |later|);
      assert Plan(p, size, buffer, rest) == first + tail;
    } else {
      var more, later := buffer + [rest[0]], rest[1..];
      UpcomingGrows(logs, h, p, buffer, rest, at);
      PlanCarries(logs, h, p, size, more, later, at);
      assert Plan(p, size, buffer, rest) == Plan(p, size, more, later);
    }
  }

  ghost predicate PosOk(logs: seq<seq<Record>>, h: Frontier, pos: map<nat, nat>) {
    |h| == |logs| &&
    forall p :: p in pos ==> p < |logs| && pos[p] <= EndOffset(logs[p]) && Below(logs[p], pos[p]) <= h[p]
  }

  ghost predicate ReaderSafe(logs: seq<seq<Record>>, h: Frontier, rd: Reader) {
    rd.local.Working? ==>
      |h| == |logs| && PlanSafe(logs, h, rd.local.plan) && PosOk(logs, RaiseAll(logs, h, rd.local.plan), rd.pos)
  }

  lemma {:induction false} RunEnd(log: seq<Record>, at: nat, rs: seq<Record>)
    requires Increasing(log) && At(log, at, rs) && |rs| > 0
    ensures Below(log, Last(rs).offset + 1) == at + |rs| && Last(rs).offset + 1 <= EndOffset(log)
  {
    BelowIndex(log, at + |rs| - 1);
    IncreasingPairs(log);
  }

  lemma {:induction false} PosAdvances(logs: seq<seq<Record>>, h: Frontier, g: Frontier, pos: map<nat, nat>, f: Fetch)
    requires PosOk(logs, h, pos) && f.partition in pos && Increasing(logs[f.partition])
    requires At(logs[f.partition], Below(logs[f.partition], pos[f.partition]), f.records)
    requires Leq(h, g) && Below(logs[f.partition], pos[f.partition]) + |f.records| <= g[f.partition]
    ensures PosOk(logs, g, Advance(pos, f))
  {
    if |f.records| > 0 {
      RunEnd(logs[f.partition], Below(logs[f.partition], pos[f.partition]), f.records);
    }
  }

  lemma {:induction false} PollSafe(logs: seq<seq<Record>>, h: Frontier, size: nat, pos: map<nat, nat>, fetches: seq<Fetch>)
    requires PosOk(logs, h, pos) && Fetched(logs, pos, fetches)
    requires forall p :: 0 <= p < |logs| ==> Increasing(logs[p])
    ensures ReaderSafe(logs, h, Reader(AdvanceAll(pos, fetches), Working(PlanOf(size, fetches))))
    decreases |fetches|
  {
    if |fetches| > 0 {
      var f := fetches[0];
      var plan := Plan(f.partition, size, [], f.records);
      PlanCarries(logs, h, f.partition, size, [], f.records, Below(logs[f.partition], pos[f.partition]));
      RaiseAllGrows(logs, h, plan);
      PosAdvances(logs, h, RaiseAll(logs, h, plan), pos, f);
      PollSafe(logs, RaiseAll(logs, h, plan), size, Advance(pos, f), fetches[1..]);
      PlanSafeConcat(logs, h, plan, PlanOf(size, fetches[1..]));
    }
  }

  // ----- the invariant -----

  ghost predicate LogOk(c: Config, p: nat, log: seq<Record>) {
    && Increasing(log)
    && forall i :: 0 <= i < |log| && log[i].content.Valid? ==> c.route(KeyOf(log[i].content.event)) == p
  }

  // The handled records of a partition.
  function Prefix(logs: seq<seq<Record>>, h: Frontier, p: nat): seq<Record> {
    if p < |logs| && p < |h| && h[p] <= |logs[p]| then logs[p][..h[p]] else []
  }

  // The table, key by key, is the first event of the handled prefix of that
  // key's partition.
  ghost predicate TableMatches(c: Config, logs: seq<seq<Record>>, h: Frontier, t: Table) {
    forall k :: Lookup(t, k) == FirstIn(Prefix(logs, h, c.route(k)), k)
  }

  // The quarantine topic holds exactly the handled poison records.
  ghost predicate DlqMatches(logs: seq<seq<Record>>, h: Frontier, dlq: seq<Quarantined>) {
    forall p: nat, r :: Quarantined(p, r) in dlq <==> r in Prefix(logs, h, p) && r.content.Poison?
  }

  ghost predicate PartitionOk(c: Config, p: nat, log: seq<Record>, committed: nat, handled: nat) {
    LogOk(c, p, log) && handled <= |log| && committed <= EndOffset(log) && Below(log, committed) <= handled
  }

  ghost predicate FrontierOk(c: Config, s: State, h: Frontier) {
    && c.Valid() && |s.logs| == |s.committed| == |h| == c.partitions
    && forall p :: 0 <= p < |h| ==> PartitionOk(c, p, s.logs[p], s.committed[p], h[p])
  }

  ghost predicate ClientsOk(s: State, h: Frontier) {
    && (forall r :: r in s.readers ==> ReaderSafe(s.logs, h, s.readers[r]))
    && (forall op :: op in s.flight ==> OpSafe(s.logs, h, op))
  }

  ghost predicate Inv(c: Config, s: State, h: Frontier) {
    && FrontierOk(c, s, h)
    && TableMatches(c, s.logs, h, s.table)
    && DlqMatches(s.logs, h, s.dlq)
    && ClientsOk(s, h)
  }

  // ----- effects of a safe request -----

  // Writing records i..i+n again, or for the first time, extends a handled
  // prefix to at least i+n when i is within it.
  lemma {:induction false} OverlappingWrite(log: seq<Record>, h: nat, i: nat, n: nat, k: Key)
    requires i <= h <= |log| && i + n <= |log|
    ensures FirstIn(log[..Max(h, i + n)], k)
         == OrElse(FirstIn(log[..h], k), FirstIn(log[i..i + n], k))
  {
    var m := if h < i + n then h else i + n;
    var a, b := log[..i], log[i..m];
    assert log[..h] == a + (b + log[m..h]);
    assert log[i..i + n] == b + log[m..i + n];
    FirstInConcat(a, b + log[m..h], k);
    FirstInConcat(b, log[m..h], k);
    FirstInConcat(b, log[m..i + n], k);
    if m == h {
      assert log[..Max(h, i + n)] == log[..h] + log[m..i + n];
      FirstInConcat(log[..h], log[m..i + n], k);
    } else {
      assert log[m..i + n] == [];
    }
  }

  lemma {:induction false} OtherPartitionsKeys(c: Config, p: nat, log: seq<Record>, i: nat, n: nat, k: Key)
    requires LogOk(c, p, log) && i + n <= |log| && c.route(k) != p
    ensures FirstIn(log[i..i + n], k) == None
  {
    var part := log[i..i + n];
    forall j | 0 <= j < n ensures part[j] == log[i + j] {}
    FirstInFound(part, k);
  }

  lemma {:induction false} RaiseKeepsFrontier(c: Config, s: State, h: Frontier, op: Op)
    requires FrontierOk(c, s, h) && OpSafe(s.logs, h, op)
    ensures FrontierOk(c, s, Raise(s.logs, h, op))
  {
    if !op.Commit? {
      var p := op.partition;
      assert PartitionOk(c, p, s.logs[p], s.committed[p], Raise(s.logs, h, op)[p]);
    }
  }

  // The frontier of partition p after a safe write or quarantine.
  lemma {:induction false} RaisedPrefix(c: Config, s: State, h: Frontier, op: Op) returns (log: seq<Record>, i: nat)
    requires FrontierOk(c, s, h) && OpSafe(s.logs, h, op) && !op.Commit?
    ensures log == s.logs[op.partition] && LogOk(c, op.partition, log)
    ensures i <= h[op.partition] <= |log| && i + |Handles(op)| <= |log| && log[i..i + |Handles(op)|] == Handles(op)
    ensures Prefix(s.logs, h, op.partition) == log[..h[op.partition]]
    ensures Prefix(s.logs, Raise(s.logs, h, op), op.partition) == log[..Max(h[op.partition], i + |Handles(op)|)]
    ensures forall q :: q != op.partition ==> Prefix(s.logs, Raise(s.logs, h, op), q) == Prefix(s.logs, h, q)
  {
    log, i := s.logs[op.partition], Below(s.logs[op.partition], Handles(op)[0].offset);
    AtSlice(log, i, Handles(op));
    assert PartitionOk(c, op.partition, log, s.committed[op.partition], h[op.partition]);
  }

  // Records i.. of partition p join the handled prefix of length h.
  lemma {:induction false} TableStep(c: Config, p: nat, log: seq<Record>, h: nat, i: nat, rs: seq<Record>, k: Key)
    requires LogOk(c, p, log) && i <= h <= |log| && i + |rs| <= |log| && log[i..i + |rs|] == rs
    ensures c.route(k) == p ==> FirstIn(log[..Max(h, i + |rs|)], k) == OrElse(FirstIn(log[..h], k), FirstIn(rs, k))
    ensures c.route(k) != p ==> FirstIn(rs, k) == None
  {
    if c.route(k) == p {
      OverlappingWrite(log, h, i, |rs|, k);
    } else {
      OtherPartitionsKeys(c, p, log, i, |rs|, k);
    }
  }

  lemma {:induction false} KeyStep(c: Config, p: nat, log: seq<Record>, h: nat, i: nat, rs: seq<Record>, k: Key,
                                   before: seq<Record>, after: seq<Record>)
    requires LogOk(c, p, log) && i <= h <= |log| && i + |rs| <= |log| && log[i..i + |rs|] == rs
    requires c.route(k) == p ==> before == log[..h] && after == log[..Max(h, i + |rs|)]
    requires c.route(k) != p ==> before == after
    ensures FirstIn(after, k) == OrElse(FirstIn(before, k), FirstIn(rs, k))
  {
    TableStep(c, p, log, h, i, rs, k);
  }

  lemma {:induction false} EffectKeepsTable(c: Config, s: State, h: Frontier, op: Op)
    requires FrontierOk(c, s, h) && OpSafe(s.logs, h, op) && !op.Commit? && TableMatches(c, s.logs, h, s.table)
    ensures TableMatches(c, s.logs, Raise(s.logs, h, op), Effect(s, op).table)
  {
    var log, i := RaisedPrefix(c, s, h, op);
    var p, g, t := op.partition, Raise(s.logs, h, op), Effect(s, op).table;
    forall k ensures Lookup(t, k) == FirstIn(Prefix(s.logs, g, c.route(k)), k) {
      KeyStep(c, p, log, h[p], i, Handles(op), k, Prefix(s.logs, h, c.route(k)), Prefix(s.logs, g, c.route(k)));
      assert Lookup(s.table, k) == FirstIn(Prefix(s.logs, h, c.route(k)), k);
      EffectLookup(s, op, k);
    }
  }

  lemma {:induction false} EffectLookup(s: State, op: Op, k: Key)
    requires !op.Commit? && (op.Quarantine? ==> op.record.content.Poison?)
    ensures Lookup(Effect(s, op).table, k) == OrElse(Lookup(s.table, k), FirstIn(Handles(op), k))
  {
    if op.Write? {
      InsertAllIsFirstWins(s.table, EventsOf(op.batch), k);
      FirstInIsFirst(op.batch, k);
    } else {
      assert FirstIn([op.record], k) == FirstIn([op.record][1..], k);
    }
  }

  lemma {:induction false} MemberOfGrown(log: seq<Record>, h: nat, i: nat, rs: seq<Record>, r: Record)
    requires i <= h <= |log| && i + |rs| <= |log| && log[i..i + |rs|] == rs
    ensures r in log[..Max(h, i + |rs|)] <==> r in log[..h] || r in rs
  {
    var m := Max(h, i + |rs|);
    if r in log[..m] {
      var j :| 0 <= j < m && log[j] == r;
      assert j < h ==> log[..h][j] == r;
      assert h <= j ==> rs[j - i] == r;
    }
    if r in rs {
      var j :| 0 <= j < |rs| && rs[j] == r;
      assert log[..m][i + j] == r;
    }
    if r in log[..h] {
      var j :| 0 <= j < h && log[j] == r;
      assert log[..m][j] == r;
    }
  }

  lemma {:induction false} EffectKeepsDlqOf(c: Config, s: State, h: Frontier, op: Op, p: nat, r: Record)
    requires FrontierOk(c, s, h) && OpSafe(s.logs, h, op) && !op.Commit?
    requires Quarantined(p, r) in s.dlq <==> r in Prefix(s.logs, h, p) && r.content.Poison?
    ensures Quarantined(p, r) in Effect(s, op).dlq <==> r in Prefix(s.logs, Raise(s.logs, h, op), p) && r.content.Poison?
  {
    var log, i := RaisedPrefix(c, s, h, op);
    if p == op.partition {
      MemberOfGrown(log, h[p], i, Handles(op), r);
      if op.Write? && r in op.batch {
        var j :| 0 <= j < |op.batch| && op.batch[j] == r;
        AllValidMember(op.batch, j);
      }
    }
  }

  lemma {:induction false} EffectKeepsDlq(c: Config, s: State, h: Frontier, op: Op)
    requires FrontierOk(c, s, h) && DlqMatches(s.logs, h, s.dlq) && OpSafe(s.logs, h, op) && !op.Commit?
    ensures DlqMatches(s.logs, Raise(s.logs, h, op), Effect(s, op).dlq)
  {
    forall p: nat, r
      ensures Quarantined(p, r) in Effect(s, op).dlq <==> r in Prefix(s.logs, Raise(s.logs, h, op), p) && r.content.Poison?
    {
      EffectKeepsDlqOf(c, s, h, op, p, r);
    }
  }

  lemma {:induction false} ClientsMonotone(s: State, h: Frontier, g: Frontier)
    requires ClientsOk(s, h) && Leq(h, g) && |h| == |s.logs|
    ensures ClientsOk(s, g)
  {
    forall r | r in s.readers ensures ReaderSafe(s.logs, g, s.readers[r]) {
      if s.readers[r].local.Working? {
        PlanSafeMonotone(s.logs, h, g, s.readers[r].local.plan);
      }
    }
  }

  lemma {:induction false} CommitKeepsFrontier(c: Config, s: State, h: Frontier, p: nat, r: Record)
    requires FrontierOk(c, s, h) && OpSafe(s.logs, h, Commit(p, r))
    ensures FrontierOk(c, Effect(s, Commit(p, r)), h)
  {
    assert PartitionOk(c, p, s.logs[p], s.committed[p], h[p]);
    RunEnd(s.logs[p], Below(s.logs[p], r.offset), [r]);
    assert PartitionOk(c, p, s.logs[p], r.offset + 1, h[p]);
  }

  // A safe request keeps the invariant whenever it takes effect.
  lemma {:induction false} EffectKeepsInv(c: Config, s: State, h: Frontier, op: Op)
    requires Inv(c, s, h) && OpSafe(s.logs, h, op)
    ensures Inv(c, Effect(s, op), Raise(s.logs, h, op)) && Leq(h, Raise(s.logs, h, op))
  {
    ClientsMonotone(s, h, Raise(s.logs, h, op));
    RaiseKeepsFrontier(c, s, h, op);
    if op.Commit? {
      CommitKeepsFrontier(c, s, h, op.partition, op.record);
    } else {
      EffectKeepsDlq(c, s, h, op);
      EffectKeepsTable(c, s, h, op);
    }
  }

  // ----- publishing -----

  lemma {:induction false} AtExtends(log: seq<Record>, r: Record, rs: seq<Record>)
    requires Increasing(log) && EndOffset(log) <= r.offset && rs != [] && At(log, Below(log, rs[0].offset), rs)
    ensures Below(log + [r], rs[0].offset) == Below(log, rs[0].offset)
    ensures At(log + [r], Below(log, rs[0].offset), rs)
  {
    var i := Below(log, rs[0].offset);
    AtIndex(log, i, rs);
    IncreasingPairs(log);
    BelowAppend(log, r, rs[0].offset);
    AtSlice(log, i, rs);
    AtSlice(log + [r], i, rs);
    assert (log + [r])[i..i + |rs|] == log[i..i + |rs|];
  }

  lemma {:induction false} OpSafeExtends(logs: seq<seq<Record>>, h: Frontier, op: Op, p: nat, r: Record)
    requires p < |logs| && EndOffset(logs[p]) <= r.offset && OpSafe(logs, h, op) && Increasing(logs[p])
    ensures var more := logs[p := logs[p] + [r]]; OpSafe(more, h, op) && Raise(more, h, op) == Raise(logs, h, op)
  {
    if op.partition == p {
      AtExtends(logs[p], r, Named(op));
    }
  }

  lemma {:induction false} PlanSafeExtends(logs: seq<seq<Record>>, h: Frontier, plan: seq<Op>, p: nat, r: Record)
    requires p < |logs| && EndOffset(logs[p]) <= r.offset && PlanSafe(logs, h, plan) && Increasing(logs[p])
    ensures var more := logs[p := logs[p] + [r]];
            PlanSafe(more, h, plan) && RaiseAll(more, h, plan) == RaiseAll(logs, h, plan)
    decreases |plan|
  {
    if |plan| > 0 {
      OpSafeExtends(logs, h, plan[0], p, r);
      PlanSafeExtends(logs, Raise(logs, h, plan[0]), plan[1..], p, r);
    }
  }

  lemma {:induction false} PosOkExtends(logs: seq<seq<Record>>, h: Frontier, pos: map<nat, nat>, p: nat, r: Record)
    requires p < |logs| && EndOffset(logs[p]) <= r.offset && PosOk(logs, h, pos)
    ensures PosOk(logs[p := logs[p] + [r]], h, pos)
  {
    if p in pos {
      BelowAppend(logs[p], r, pos[p]);
    }
  }

  lemma {:induction false} PublishKeepsClients(s: State, h: Frontier, p: nat, r: Record)
    requires p < |s.logs| && EndOffset(s.logs[p]) <= r.offset && ClientsOk(s, h) && Increasing(s.logs[p])
    ensures ClientsOk(s.(logs := s.logs[p := s.logs[p] + [r]]), h)
  {
    var more := s.logs[p := s.logs[p] + [r]];
    forall id | id in s.readers ensures ReaderSafe(more, h, s.readers[id]) {
      var rd := s.readers[id];
      if rd.local.Working? {
        PlanSafeExtends(s.logs, h, rd.local.plan, p, r);
        PosOkExtends(s.logs, RaiseAll(s.logs, h, rd.local.plan), rd.pos, p, r);
      }
    }
    forall op | op in s.flight ensures OpSafe(more, h, op) {
      OpSafeExtends(s.logs, h, op, p, r);
    }
  }

  lemma {:induction false} PublishKeepsInv(c: Config, s: State, h: Frontier, p: nat, r: Record)
    requires Inv(c, s, h) && Enabled(c, s, Publish(p, r))
    ensures Inv(c, Next(c, s, Publish(p, r)), h)
  {
    var log := s.logs[p] + [r];
    var more := s.logs[p := log];
    assert PartitionOk(c, p, s.logs[p], s.committed[p], h[p]);
    BelowAppend(s.logs[p], r, s.committed[p]);
    assert log[..|log| - 1] == s.logs[p];
    assert PartitionOk(c, p, log, s.committed[p], h[p]);
    PublishKeepsClients(s, h, p, r);
    assert log[..h[p]] == s.logs[p][..h[p]];
    assert forall q :: Prefix(more, h, q) == Prefix(s.logs, h, q);
  }

  // ----- every step keeps the invariant -----

  // The head of a safe plan is safe, and the reader moves on once it took effect.
  lemma {:induction false} ReaderMoves(logs: seq<seq<Record>>, h: Frontier, rd: Reader)
    requires ReaderSafe(logs, h, rd) && rd.local.Working? && |rd.local.plan| > 0
    ensures OpSafe(logs, h, rd.local.plan[0])
    ensures ReaderSafe(logs, Raise(logs, h, rd.local.plan[0]), rd.(local := Working(rd.local.plan[1..])))
  {
    var op := rd.local.plan[0];
    assert SafeIn(logs)(h, op) && RaiseIn(logs)(h, op) == Raise(logs, h, op);
  }

  lemma {:induction false} SetReader(c: Config, s: State, h: Frontier, r: nat, rd: Reader)
    requires Inv(c, s, h) && ReaderSafe(s.logs, h, rd)
    ensures Inv(c, s.(readers := s.readers[r := rd]), h)
  {
  }

  lemma {:induction false} InvokeKeepsInv(c: Config, s: State, h: Frontier, r: nat, op: Op, ok: bool) returns (g: Frontier)
    requires Inv(c, s, h) && Enabled(c, s, Invoke(r, op, ok))
    ensures Inv(c, Next(c, s, Invoke(r, op, ok)), g) && Leq(h, g)
  {
    var rd := s.readers[r];
    assert ReaderSafe(s.logs, h, rd);
    ReaderMoves(s.logs, h, rd);
    var after := rd.(local := ReaderPlan.Next(c.size, rd.local, Called(op, ok)));
    if ok {
      // The effect first, then the reader moves on under the new frontier.
      EffectKeepsInv(c, s, h, op);
      g := Raise(s.logs, h, op);
      SetReader(c, Effect(s, op), g, r, after);
    } else {
      g := h;
      SetReader(c, s, h, r, after);
    }
  }

  lemma {:induction false} StepKeepsInv(c: Config, s: State, h: Frontier, step: Step) returns (g: Frontier)
    requires Inv(c, s, h) && Enabled(c, s, step)
    ensures Inv(c, Next(c, s, step), g) && Leq(h, g)
  {
    g := h;
    match step
    case Publish(p, record) => PublishKeepsInv(c, s, h, p, record);
    case Poll(r, fetches) =>
      assert ReaderSafe(s.logs, h, s.readers[r]);
      PollSafe(s.logs, h, c.size, s.readers[r].pos, fetches);
    case Invoke(r, op, ok) => g := InvokeKeepsInv(c, s, h, r, op, ok);
    case Land(op) =>
      EffectKeepsInv(c, s, h, op);
      g := Raise(s.logs, h, op);
    case Assign(r, p) =>
      assert ReaderSafe(s.logs, h, s.readers[r]);
    case Revoke(r, p) =>
      assert ReaderSafe(s.logs, h, s.readers[r]);
    case _ =>
  }

  lemma {:induction false} RunKeepsInv(c: Config, s: State, h: Frontier, steps: seq<Step>) returns (g: Frontier)
    requires Inv(c, s, h) && Run(c, s, steps).Some?
    ensures Inv(c, Run(c, s, steps).value, g) && Leq(h, g)
    decreases |steps|
  {
    if |steps| == 0 {
      g := h;
    } else {
      var init := steps[..|steps| - 1];
      var f := RunKeepsInv(c, s, h, init);
      g := StepKeepsInv(c, Run(c, s, init).value, f, Last(steps));
    }
  }

  lemma {:induction false} InitInv(c: Config)
    requires c.Valid()
    ensures Inv(c, Init(c), seq(c.partitions, _ => 0))
  {
    var h := seq(c.partitions, _ => 0);
    assert forall p :: Prefix(Init(c).logs, h, p) == [];
  }

  ghost predicate Reachable(c: Config, s: State) {
    c.Valid() && exists steps :: Run(c, Init(c), steps) == Some(s)
  }

  lemma {:induction false} ReachableInv(c: Config, s: State) returns (h: Frontier)
    requires Reachable(c, s)
    ensures Inv(c, s, h)
  {
    var steps :| Run(c, Init(c), steps) == Some(s);
    InitInv(c);
    h := RunKeepsInv(c, Init(c), seq(c.partitions, _ => 0), steps);
  }

  // ----- main results -----

  // A record that the group has committed past is stored, with the content of
  // the first record of its key in the whole log, or its bytes are quarantined.
  ghost predicate Handled(s: State, p: nat, i: nat)
    requires p < |s.logs| && i < |s.logs[p]|
  {
    match s.logs[p][i].content
    case Valid(e) => Lookup(s.table, KeyOf(e)).Some? && Lookup(s.table, KeyOf(e)) == FirstIn(s.logs[p], KeyOf(e))
    case Poison(_) => Quarantined(p, s.logs[p][i]) in s.dlq
  }

  lemma {:induction false} PrefixIsHandled(c: Config, s: State, h: Frontier, p: nat, i: nat)
    requires Inv(c, s, h) && p < |s.logs| && i < h[p]
    ensures i < |s.logs[p]| && Handled(s, p, i)
  {
    var log := s.logs[p];
    assert PartitionOk(c, p, log, s.committed[p], h[p]);
    assert log == log[..h[p]] + log[h[p]..];
    assert log[i] == log[..h[p]][i];
    match log[i].content
    case Valid(e) =>
      assert Lookup(s.table, KeyOf(e)) == FirstIn(Prefix(s.logs, h, p), KeyOf(e));
      FirstInFound(log[..h[p]], KeyOf(e));
      FirstInConcat(log[..h[p]], log[h[p]..], KeyOf(e));
    case Poison(_) =>
  }

  lemma {:induction false} CommittedIsHandled(c: Config, s: State, p: nat, i: nat)
    requires Reachable(c, s)
    requires p < |s.logs| == |s.committed| && i < |s.logs[p]| && s.logs[p][i].offset < s.committed[p]
    ensures Handled(s, p, i)
  {
    var h := ReachableInv(c, s);
    assert PartitionOk(c, p, s.logs[p], s.committed[p], h[p]);
    BelowSplits(s.logs[p], s.committed[p]);
    PrefixIsHandled(c, s, h, p, i);
  }

  // Rows never change once present; logs and the quarantine topic only grow.
  lemma {:induction false} HistoryIsKept(c: Config, s: State, steps: seq<Step>)
    requires Run(c, s, steps).Some?
    ensures var t := Run(c, s, steps).value;
            && Extends(t.table, s.table) && s.dlq <= t.dlq
            && |t.logs| == |s.logs| && forall p :: 0 <= p < |s.logs| ==> s.logs[p] <= t.logs[p]
    decreases |steps|
  {
    if |steps| > 0 {
      var init, step := steps[..|steps| - 1], Last(steps);
      HistoryIsKept(c, s, init);
      if step.Invoke? && step.op.Write? {
        InsertAllExtends(Run(c, s, init).value.table, EventsOf(step.op.batch));
      } else if step.Land? && step.op.Write? {
        InsertAllExtends(Run(c, s, init).value.table, EventsOf(step.op.batch));
      }
    }
  }
}
