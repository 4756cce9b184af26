/**
  * Where a reader resumes: it never handles a record again that the group had
  * committed before its assignment, and without failures every record is
  * handled exactly once.
  */
module Resumption {
  import opened Basics
  import opened EventTable
  import opened ReaderPlan
  import opened Delivery

  // ----- nothing before the committed offset -----

  ghost predicate RecordsFrom(rs: seq<Record>, o: nat) {
    forall i :: 0 <= i < |rs| ==> rs[i].offset >= o
  }

  ghost predicate OpFrom(op: Op, p: nat, o: nat) {
    op.partition == p ==> RecordsFrom(Handles(op), o)
  }

  ghost predicate OpsFrom(plan: seq<Op>, p: nat, o: nat) {
    forall i :: 0 <= i < |plan| ==> OpFrom(plan[i], p, o)
  }

  lemma {:induction false} OpsFromConcat(a: seq<Op>, b: seq<Op>, p: nat, o: nat)
    requires OpsFrom(a, p, o) && OpsFrom(b, p, o)
    ensures OpsFrom(a + b, p, o)
  {
  }

  lemma {:induction false} TriggerFrom(q: nat, buffer: seq<Record>, r: Record, p: nat, o: nat)
    requires q == p ==> RecordsFrom(buffer, o) && r.offset >= o
    ensures OpsFrom(Flush(q, buffer), p, o) && OpsFrom(Trigger(q, buffer, r), p, o)
  {
    assert q == p ==> RecordsFrom(buffer + [r], o);
  }

  lemma {:induction false} PlanFrom(q: nat, size: nat, buffer: seq<Record>, rest: seq<Record>, p: nat, o: nat)
    requires q == p ==> RecordsFrom(buffer, o) && RecordsFrom(rest, o)
    ensures OpsFrom(Plan(q, size, buffer, rest), p, o)
    decreases |rest|
  {
    if |rest| == 0 {
      TriggerFrom(q, buffer, Record(o, Poison([])), p, o);
    } else if rest[0].content.Poison? || |buffer| + 1 >= size {
      TriggerFrom(q, buffer, rest[0], p, o);
      PlanFrom(q, size, [], rest[1..], p, o);
      OpsFromConcat(Trigger(q, buffer, rest[0]), Plan(q, size, [], rest[1..]), p, o);
    } else {
      assert q == p ==> RecordsFrom(buffer + [rest[0]], o);
      PlanFrom(q, size, buffer + [rest[0]], rest[1..], p, o);
    }
  }

  // A fetch from position o on holds no earlier record, and moves on.
  lemma {:induction false} FetchFrom(log: seq<Record>, o: nat, rs: seq<Record>)
    requires Increasing(log) && At(log, Below(log, o), rs)
    ensures RecordsFrom(rs, o)
  {
    var at := Below(log, o);
    BelowSplits(log, o);
    AtSlice(log, at, rs);
    forall i | 0 <= i < |rs| ensures rs[i].offset >= o {
      assert rs[i] == log[at..at + |rs|][i] == log[at + i];
    }
  }

  ghost predicate PosFrom(pos: map<nat, nat>, p: nat, o: nat) {
    p in pos ==> pos[p] >= o
  }

  lemma {:induction false} PollFrom(logs: seq<seq<Record>>, pos: map<nat, nat>, size: nat, fetches: seq<Fetch>, p: nat, o: nat)
    requires Fetched(logs, pos, fetches) && PosFrom(pos, p, o) && (p < |logs| ==> Increasing(logs[p]))
    ensures OpsFrom(PlanOf(size, fetches), p, o) && PosFrom(AdvanceAll(pos, fetches), p, o)
    decreases |fetches|
  {
    if |fetches| > 0 {
      var f := fetches[0];
      if f.partition == p {
        FetchFrom(logs[p], pos[p], f.records);
        assert RecordsFrom(f.records, o);
      }
      PlanFrom(f.partition, size, [], f.records, p, o);
      PollFrom(logs, Advance(pos, f), size, fetches[1..], p, o);
      OpsFromConcat(Plan(f.partition, size, [], f.records), PlanOf(size, fetches[1..]), p, o);
    }
  }

  // Reader r will handle nothing of partition p before offset o.
  ghost predicate NotBefore(s: State, r: nat, p: nat, o: nat) {
    r in s.readers ==>
      PosFrom(s.readers[r].pos, p, o) && (s.readers[r].local.Working? ==> OpsFrom(s.readers[r].local.plan, p, o))
  }

  lemma {:induction false} InvokeNotBefore(c: Config, s: State, q: nat, op: Op, ok: bool, r: nat, p: nat, o: nat)
    requires NotBefore(s, r, p, o) && Delivery.Enabled(c, s, Invoke(q, op, ok))
    ensures NotBefore(Delivery.Next(c, s, Invoke(q, op, ok)), r, p, o)
    ensures q == r ==> OpFrom(op, p, o)
  {
  }

  lemma {:induction false} StepNotBefore(c: Config, s: State, step: Step, r: nat, p: nat, o: nat)
    requires NotBefore(s, r, p, o) && Delivery.Enabled(c, s, step) && step != Assign(r, p)
    requires p < |s.logs| ==> Increasing(s.logs[p])
    ensures NotBefore(Delivery.Next(c, s, step), r, p, o)
    ensures step.Invoke? && step.r == r ==> OpFrom(step.op, p, o)
  {
    match step
    case Publish(_, _) =>
    case Join(_) =>
    case Assign(_, _) =>
    case Revoke(_, _) =>
    case Poll(q, fetches) =>
      if q == r {
        PollFrom(s.logs, s.readers[r].pos, c.size, fetches, p, o);
      }
    case Invoke(q, op, ok) => InvokeNotBefore(c, s, q, op, ok, r, p, o);
    case Land(_) =>
    case Crash(_) =>
  }

  ghost predicate NotAssigned(steps: seq<Step>, r: nat, p: nat) {
    forall i :: 0 <= i < |steps| ==> steps[i] != Assign(r, p)
  }

  lemma {:induction false} RunNotBefore(c: Config, s: State, h: Frontier, steps: seq<Step>, r: nat, p: nat, o: nat)
    requires Inv(c, s, h) && NotBefore(s, r, p, o) && Run(c, s, steps).Some? && NotAssigned(steps, r, p)
    ensures NotBefore(Run(c, s, steps).value, r, p, o)
    ensures forall i :: 0 <= i < |steps| && steps[i].Invoke? && steps[i].r == r ==> OpFrom(steps[i].op, p, o)
    decreases |steps|
  {
    if |steps| > 0 {
      var init, step := steps[..|steps| - 1], Last(steps);
      RunNotBefore(c, s, h, init, r, p, o);
      var g := RunKeepsInv(c, s, h, init);
      var t := Run(c, s, init).value;
      assert p < |t.logs| ==> PartitionOk(c, p, t.logs[p], t.committed[p], g[p]);
      StepNotBefore(c, t, step, r, p, o);
      forall i | 0 <= i < |steps| && steps[i].Invoke? && steps[i].r == r ensures OpFrom(steps[i].op, p, o) {
        assert i < |init| ==> steps[i] == init[i];
      }
    }
  }

  // On every run, whatever else happens: from its assignment of partition p at
  // step n until its next one, reader r writes and quarantines only records of
  // p from the offset on that was committed at step n.
  lemma {:induction false} ResumesAtCommitted(c: Config, steps: seq<Step>, n: nat, i: nat, r: nat, p: nat)
    requires c.Valid() && Run(c, Init(c), steps).Some? && n < i < |steps| && steps[n] == Assign(r, p)
    requires forall j :: n < j < i ==> steps[j] != Assign(r, p)
    requires steps[i].Invoke? && steps[i].r == r && steps[i].op.partition == p
    ensures Run(c, Init(c), steps[..n]).Some? && p < |Run(c, Init(c), steps[..n]).value.committed|
    ensures forall k :: 0 <= k < |Handles(steps[i].op)| ==>
              Handles(steps[i].op)[k].offset >= Run(c, Init(c), steps[..n]).value.committed[p]
  {
    RunSplits(c, Init(c), steps, n);
    var s := Run(c, Init(c), steps[..n]).value;
    InitInv(c);
    var h := RunKeepsInv(c, Init(c), seq(c.partitions, _ => 0), steps[..n]);
    var g := StepKeepsInv(c, s, h, Assign(r, p));
    var after := steps[n..][1..i + 1 - n];
    LaterRun(c, s, steps[n..], i + 1 - n);
    forall j | 0 <= j < |after| ensures after[j] == steps[n + 1 + j] {}
    RunNotBefore(c, Delivery.Next(c, s, Assign(r, p)), g, after, r, p, s.committed[p]);
    assert after[i - n - 1] == steps[i] && OpFrom(steps[i].op, p, s.committed[p]);
  }

  // The steps after the first, up to n.
  lemma {:induction false} LaterRun(c: Config, s: State, steps: seq<Step>, n: nat)
    requires 0 < n <= |steps| && Run(c, s, steps).Some?
    ensures Delivery.Enabled(c, s, steps[0]) && Run(c, Delivery.Next(c, s, steps[0]), steps[1..n]).Some?
  {
    RunSplits(c, s, steps, n);
    RunSplits(c, s, steps[..n], 1);
    assert steps[..n][..1] == [steps[0]] && steps[..n][1..] == steps[1..n];
    assert [steps[0]][..0] == [] && Run(c, s, [steps[0]][..0]) == Some(s);
  }

  // ----- exactly once without failures -----

  // No call fails, a partition has one reader at a time, and a reader leaves
  // only when it is idle.
  ghost predicate Orderly(c: Config, steps: seq<Step>)
    requires Run(c, Init(c), steps).Some?
    decreases |steps|
  {
    |steps| == 0 ||
    ( var init := steps[..|steps| - 1];
      && Orderly(c, init)
      && StepOrderly(Run(c, Init(c), init).value, Last(steps)))
  }

  ghost predicate StepOrderly(s: State, step: Step) {
    match step
    case Invoke(_, _, ok) => ok
    case Assign(r, p) => forall q :: q in s.readers && q != r ==> p !in s.readers[q].pos
    case Crash(r) => Idle(s, r)
    case _ => true
  }

  // The records of partition p that were written or quarantined, in order.
  function HandledIn(steps: seq<Step>, p: nat): seq<Record> {
    if |steps| == 0 then []
    else HandledIn(steps[..|steps| - 1], p) + HandledAt(Last(steps), p)
  }

  function HandledAt(step: Step, p: nat): seq<Record> {
    if step.Invoke? && step.ok && step.op.partition == p then Handles(step.op) else []
  }

  lemma {:induction false} HandledInConcat(a: seq<Step>, b: seq<Step>, p: nat)
    ensures HandledIn(a + b, p) == HandledIn(a, p) + HandledIn(b, p)
    decreases |b|
  {
    if |b| == 0 {
      assert a + b == a;
    } else {
      assert (a + b)[..|a + b| - 1] == a + b[..|b| - 1] && Last(a + b) == Last(b);
      HandledInConcat(a, b[..|b| - 1], p);
    }
  }

  lemma {:induction false} HandledInOne(step: Step, p: nat)
    ensures HandledIn([step], p) == HandledAt(step, p)
  {
    assert [step][..0] == [];
  }

  // What a plan will still do to partition p: the records it handles, and the
  // offset it leaves committed.
  function Ahead(plan: seq<Op>, p: nat): seq<Record> {
    if |plan| == 0 then [] else (if plan[0].partition == p then Handles(plan[0]) else []) + Ahead(plan[1..], p)
  }

  function CommittedBy(plan: seq<Op>, p: nat, o: nat): nat {
    if |plan| == 0 then o
    else CommittedBy(plan[1..], p, if plan[0].Commit? && plan[0].partition == p then plan[0].record.offset + 1 else o)
  }

  // Handled and planned records are the log up to the position, where the
  // committed offset will be.
  ghost predicate OwnerOk(log: seq<Record>, committed: nat, pos: nat, plan: seq<Op>, p: nat, handled: seq<Record>) {
    handled + Ahead(plan, p) == log[..Below(log, pos)] && CommittedBy(plan, p, committed) == pos
  }

  ghost predicate PlanOwned(rd: Reader) {
    rd.local.Working? && forall i :: 0 <= i < |rd.local.plan| ==> rd.local.plan[i].partition in rd.pos
  }

  ghost predicate Owns(s: State, r: nat, p: nat) {
    r in s.readers && p in s.readers[r].pos
  }

  ghost predicate OneOwner(s: State, p: nat) {
    forall q, r :: Owns(s, q, p) && Owns(s, r, p) ==> q == r
  }

  ghost predicate Exact(s: State, p: nat, handled: seq<Record>) {
    && p < |s.logs| == |s.committed| && s.flight == {}
    && (forall r :: r in s.readers ==> PlanOwned(s.readers[r]))
    && OneOwner(s, p)
    && (forall r :: Owns(s, r, p) ==>
          OwnerOk(s.logs[p], s.committed[p], s.readers[r].pos[p], s.readers[r].local.plan, p, handled))
    && ((forall r :: !Owns(s, r, p)) ==> handled == s.logs[p][..Below(s.logs[p], s.committed[p])])
  }

  // ----- what a poll adds -----

  lemma {:induction false} AheadConcat(a: seq<Op>, b: seq<Op>, p: nat, o: nat)
    ensures Ahead(a + b, p) == Ahead(a, p) + Ahead(b, p)
    ensures CommittedBy(a + b, p, o) == CommittedBy(b, p, CommittedBy(a, p, o))
    decreases |a|
  {
    if |a| == 0 {
      assert a + b == b;
    } else {
      assert (a + b)[0] == a[0] && (a + b)[1..] == a[1..] + b;
      AheadConcat(a[1..], b, p, if a[0].Commit? && a[0].partition == p then a[0].record.offset + 1 else o);
    }
  }

  lemma {:induction false} AheadOfOthers(ops: seq<Op>, q: nat, p: nat, o: nat)
    requires q != p && forall i :: 0 <= i < |ops| ==> ops[i].partition == q
    ensures Ahead(ops, p) == [] && CommittedBy(ops, p, o) == o
    decreases |ops|
  {
    if |ops| > 0 {
      AheadOfOthers(ops[1..], q, p, o);
    }
  }

  lemma {:induction false} AheadOfOwn(ops: seq<Op>, p: nat)
    requires forall i :: 0 <= i < |ops| ==> ops[i].partition == p
    ensures Ahead(ops, p) == HandledBy(ops)
  {
    if |ops| > 0 {
      AheadOfOwn(ops[1..], p);
    }
  }

  lemma {:induction false} CommitAtEnd(ops: seq<Op>, p: nat, o: nat, r: Record)
    requires ops != [] && Last(ops) == Commit(p, r)
    ensures CommittedBy(ops, p, o) == r.offset + 1
  {
    var init := ops[..|ops| - 1];
    assert ops == init + [Last(ops)];
    AheadConcat(init, [Last(ops)], p, o);
    assert [Last(ops)][1..] == [];
  }

  function Moved(pos: nat, rs: seq<Record>): nat {
    if |rs| == 0 then pos else Last(rs).offset + 1
  }

  // One fetch of partition p: its plan handles the fetched records and commits
  // where the position moves to.
  lemma {:induction false} FetchPlan(p: nat, size: nat, rs: seq<Record>, o: nat)
    requires size >= 1
    ensures Ahead(Plan(p, size, [], rs), p) == rs && CommittedBy(Plan(p, size, [], rs), p, o) == Moved(o, rs)
    ensures forall i :: 0 <= i < |Plan(p, size, [], rs)| ==> Plan(p, size, [], rs)[i].partition == p
  {
    var plan := Plan(p, size, [], rs);
    PlanIsPassPlan(p, size, rs);
    forall i | 0 <= i < |plan| ensures plan[i].partition == p {
      assert OpFits(plan[i], p, size);
    }
    AheadOfOwn(plan, p);
    if |rs| > 0 {
      CommitAtEnd(plan, p, o, Last(rs));
    }
  }

  lemma {:induction false} FetchExtends(log: seq<Record>, pos: nat, rs: seq<Record>)
    requires Increasing(log) && At(log, Below(log, pos), rs)
    ensures log[..Below(log, pos)] + rs == log[..Below(log, Moved(pos, rs))]
  {
    var at := Below(log, pos);
    AtSlice(log, at, rs);
    if |rs| > 0 {
      RunEnd(log, at, rs);
      assert log[..at + |rs|] == log[..at] + log[at..at + |rs|];
    }
  }

  lemma {:induction false} OtherFetchPlan(q: nat, size: nat, rs: seq<Record>, p: nat, o: nat)
    requires size >= 1 && q != p
    ensures Ahead(Plan(q, size, [], rs), p) == [] && CommittedBy(Plan(q, size, [], rs), p, o) == o
  {
    FetchPlan(q, size, rs, 0);
    AheadOfOthers(Plan(q, size, [], rs), q, p, o);
  }

  // The plan of one fetch, seen from partition p at position `pos`.
  lemma {:induction false} FirstFetch(log: seq<Record>, pos: nat, size: nat, f: Fetch, p: nat)
    requires size >= 1 && Increasing(log) && (f.partition == p ==> At(log, Below(log, pos), f.records))
    ensures var first, next := Plan(f.partition, size, [], f.records), if f.partition == p then Moved(pos, f.records) else pos;
            log[..Below(log, pos)] + Ahead(first, p) == log[..Below(log, next)] && CommittedBy(first, p, pos) == next
  {
    if f.partition == p {
      FetchPlan(p, size, f.records, pos);
      FetchExtends(log, pos, f.records);
    } else {
      OtherFetchPlan(f.partition, size, f.records, p, pos);
    }
  }

  lemma {:induction false} Glue(a: seq<Record>, b: seq<Record>, c: seq<Record>, d: seq<Record>, e: seq<Record>)
    requires a + b == c && c + d == e
    ensures a + (b + d) == e
  {
  }

  lemma {:induction false} PollExact(logs: seq<seq<Record>>, pos: map<nat, nat>, size: nat, fetches: seq<Fetch>, p: nat)
    requires size >= 1 && Fetched(logs, pos, fetches) && p in pos && p < |logs| && Increasing(logs[p])
    ensures p in AdvanceAll(pos, fetches)
    ensures var log, end := logs[p], AdvanceAll(pos, fetches)[p];
            && log[..Below(log, pos[p])] + Ahead(PlanOf(size, fetches), p) == log[..Below(log, end)]
            && CommittedBy(PlanOf(size, fetches), p, pos[p]) == end
    decreases |fetches|
  {
    if |fetches| > 0 {
      var f, log := fetches[0], logs[p];
      var first, rest := Plan(f.partition, size, [], f.records), PlanOf(size, fetches[1..]);
      var next := Advance(pos, f);
      PollExact(logs, next, size, fetches[1..], p);
      AheadConcat(first, rest, p, pos[p]);
      FirstFetch(log, pos[p], size, f, p);
      var end := AdvanceAll(pos, fetches)[p];
      Glue(log[..Below(log, pos[p])], Ahead(first, p), log[..Below(log, next[p])], Ahead(rest, p), log[..Below(log, end)]);
    }
  }

  lemma {:induction false} PollOwned(logs: seq<seq<Record>>, pos: map<nat, nat>, size: nat, fetches: seq<Fetch>)
    requires size >= 1 && Fetched(logs, pos, fetches)
    ensures AdvanceAll(pos, fetches).Keys == pos.Keys
    ensures forall i :: 0 <= i < |PlanOf(size, fetches)| ==> PlanOf(size, fetches)[i].partition in pos
    decreases |fetches|
  {
    if |fetches| > 0 {
      var f := fetches[0];
      PollOwned(logs, Advance(pos, f), size, fetches[1..]);
      FetchPlan(f.partition, size, f.records, 0);
      assert Advance(pos, f).Keys == pos.Keys;
    }
  }

  // ----- every orderly step keeps it -----

  // One reader moves and the committed offset with it.
  lemma {:induction false} OneReaderMoves(s: State, t: State, r: nat, rd: Reader, p: nat, handled: seq<Record>, now: seq<Record>)
    requires Exact(s, p, handled)
    requires t.logs == s.logs && |t.committed| == |s.committed| && t.flight == {} && t.readers == s.readers[r := rd] && PlanOwned(rd)
    requires if p in rd.pos then
               && OwnerOk(t.logs[p], t.committed[p], rd.pos[p], rd.local.plan, p, now)
               && forall q :: q != r ==> !Owns(s, q, p)
             else if Owns(s, r, p) then now == t.logs[p][..Below(t.logs[p], t.committed[p])]
             else now == handled && t.committed[p] == s.committed[p]
    ensures Exact(t, p, now)
  {
    assert forall q :: q != r ==> (Owns(t, q, p) <==> Owns(s, q, p));
    assert Owns(t, r, p) <==> p in rd.pos;
  }

  lemma {:induction false} OthersDoNotOwn(s: State, r: nat, p: nat, handled: seq<Record>)
    requires Exact(s, p, handled) && Owns(s, r, p)
    ensures forall q :: q != r ==> !Owns(s, q, p)
  {
  }

  lemma {:induction false} IdleOwner(s: State, r: nat, p: nat, handled: seq<Record>)
    requires Exact(s, p, handled) && Owns(s, r, p) && Idle(s, r)
    ensures s.readers[r].pos[p] == s.committed[p] && handled == s.logs[p][..Below(s.logs[p], s.committed[p])]
  {
    assert OwnerOk(s.logs[p], s.committed[p], s.readers[r].pos[p], s.readers[r].local.plan, p, handled);
  }

  lemma {:induction false} AssignExact(c: Config, s: State, r: nat, q: nat, p: nat, handled: seq<Record>)
    requires Exact(s, p, handled) && Delivery.Enabled(c, s, Assign(r, q)) && StepOrderly(s, Assign(r, q))
    ensures Exact(Delivery.Next(c, s, Assign(r, q)), p, handled)
  {
    var t := Delivery.Next(c, s, Assign(r, q));
    if Owns(s, r, p) {
      IdleOwner(s, r, p, handled);
      OthersDoNotOwn(s, r, p, handled);
    }
    OneReaderMoves(s, t, r, t.readers[r], p, handled, handled);
  }

  lemma {:induction false} RevokeExact(c: Config, s: State, r: nat, q: nat, p: nat, handled: seq<Record>)
    requires Exact(s, p, handled) && Delivery.Enabled(c, s, Revoke(r, q))
    ensures Exact(Delivery.Next(c, s, Revoke(r, q)), p, handled)
  {
    var t := Delivery.Next(c, s, Revoke(r, q));
    if Owns(s, r, p) {
      IdleOwner(s, r, p, handled);
      OthersDoNotOwn(s, r, p, handled);
    }
    OneReaderMoves(s, t, r, t.readers[r], p, handled, handled);
  }

  lemma {:induction false} CrashExact(c: Config, s: State, r: nat, p: nat, handled: seq<Record>)
    requires Exact(s, p, handled) && Delivery.Enabled(c, s, Crash(r)) && Idle(s, r)
    ensures Exact(Delivery.Next(c, s, Crash(r)), p, handled)
  {
    var t := Delivery.Next(c, s, Crash(r));
    assert forall q :: q != r ==> (Owns(t, q, p) <==> Owns(s, q, p));
    if Owns(s, r, p) {
      IdleOwner(s, r, p, handled);
    } else {
      assert forall q :: Owns(t, q, p) <==> Owns(s, q, p);
    }
  }

  lemma {:induction false} JoinExact(c: Config, s: State, r: nat, p: nat, handled: seq<Record>)
    requires Exact(s, p, handled) && Delivery.Enabled(c, s, Join(r))
    ensures Exact(Delivery.Next(c, s, Join(r)), p, handled)
  {
    var t := Delivery.Next(c, s, Join(r));
    OneReaderMoves(s, t, r, t.readers[r], p, handled, handled);
  }

  lemma {:induction false} PollStepExact(c: Config, s: State, h: Frontier, r: nat, fetches: seq<Fetch>, p: nat, handled: seq<Record>)
    requires Exact(s, p, handled) && Inv(c, s, h) && Delivery.Enabled(c, s, Poll(r, fetches))
    ensures Exact(Delivery.Next(c, s, Poll(r, fetches)), p, handled)
  {
    var t, pos := Delivery.Next(c, s, Poll(r, fetches)), s.readers[r].pos;
    assert PartitionOk(c, p, s.logs[p], s.committed[p], h[p]);
    PollOwned(s.logs, pos, c.size, fetches);
    if Owns(s, r, p) {
      IdleOwner(s, r, p, handled);
      OthersDoNotOwn(s, r, p, handled);
      PollExact(s.logs, pos, c.size, fetches, p);
    }
    OneReaderMoves(s, t, r, t.readers[r], p, handled, handled);
  }

  // What the first operation of a plan leaves to the rest.
  lemma {:induction false} HeadIsDone(op: Op, rest: seq<Op>, p: nat, o: nat)
    ensures Ahead([op] + rest, p) == (if op.partition == p then Handles(op) else []) + Ahead(rest, p)
    ensures CommittedBy([op] + rest, p, o) == CommittedBy(rest, p, if op.Commit? && op.partition == p then op.record.offset + 1 else o)
  {
    assert ([op] + rest)[1..] == rest;
  }

  lemma {:induction false} OwnerInvokes(s: State, r: nat, op: Op, p: nat, handled: seq<Record>)
    requires Exact(s, p, handled) && Owns(s, r, p) && |s.readers[r].local.plan| > 0 && op == s.readers[r].local.plan[0]
    ensures var committed := if op.Commit? && op.partition == p then op.record.offset + 1 else s.committed[p];
            OwnerOk(s.logs[p], committed, s.readers[r].pos[p], s.readers[r].local.plan[1..], p,
                    handled + if op.partition == p then Handles(op) else [])
  {
    var plan := s.readers[r].local.plan;
    assert plan == [op] + plan[1..];
    HeadIsDone(op, plan[1..], p, s.committed[p]);
    var now := if op.partition == p then Handles(op) else [];
    assert handled + (now + Ahead(plan[1..], p)) == (handled + now) + Ahead(plan[1..], p);
  }

  lemma {:induction false} InvokeExact(c: Config, s: State, r: nat, op: Op, p: nat, handled: seq<Record>)
    requires Exact(s, p, handled) && Delivery.Enabled(c, s, Invoke(r, op, true))
    ensures Exact(Delivery.Next(c, s, Invoke(r, op, true)), p, handled + HandledAt(Invoke(r, op, true), p))
  {
    var t := Delivery.Next(c, s, Invoke(r, op, true));
    assert PlanOwned(s.readers[r]);
    if Owns(s, r, p) {
      OwnerInvokes(s, r, op, p, handled);
      OthersDoNotOwn(s, r, p, handled);
    }
    OneReaderMoves(s, t, r, t.readers[r], p, handled, handled + HandledAt(Invoke(r, op, true), p));
  }

  // A longer log has the same records before an offset within it.
  lemma {:induction false} LongerLog(log: seq<Record>, r: Record, o: nat)
    requires EndOffset(log) <= r.offset && o <= EndOffset(log)
    ensures Below(log + [r], o) == Below(log, o) && (log + [r])[..Below(log, o)] == log[..Below(log, o)]
  {
    BelowAppend(log, r, o);
  }

  lemma {:induction false} PublishExact(c: Config, s: State, h: Frontier, q: nat, rec: Record, p: nat, handled: seq<Record>)
    requires Exact(s, p, handled) && Inv(c, s, h) && Delivery.Enabled(c, s, Publish(q, rec))
    ensures Exact(Delivery.Next(c, s, Publish(q, rec)), p, handled)
  {
    var t := Delivery.Next(c, s, Publish(q, rec));
    assert PartitionOk(c, p, s.logs[p], s.committed[p], h[p]);
    assert forall r :: Owns(t, r, p) <==> Owns(s, r, p);
    if q == p {
      LongerLog(s.logs[p], rec, s.committed[p]);
      forall r | Owns(t, r, p)
        ensures OwnerOk(t.logs[p], t.committed[p], t.readers[r].pos[p], t.readers[r].local.plan, p, handled)
      {
        assert ReaderSafe(s.logs, h, s.readers[r]);
        LongerLog(s.logs[p], rec, s.readers[r].pos[p]);
        assert OwnerOk(s.logs[p], s.committed[p], s.readers[r].pos[p], s.readers[r].local.plan, p, handled);
      }
    }
  }

  lemma {:induction false} StepExact(c: Config, s: State, h: Frontier, step: Step, p: nat, handled: seq<Record>)
    requires Exact(s, p, handled) && Inv(c, s, h) && Delivery.Enabled(c, s, step) && StepOrderly(s, step)
    ensures Exact(Delivery.Next(c, s, step), p, handled + HandledAt(step, p))
  {
    assert !step.Invoke? ==> handled + HandledAt(step, p) == handled;
    match step
    case Publish(q, rec) => PublishExact(c, s, h, q, rec, p, handled);
    case Join(r) => JoinExact(c, s, r, p, handled);
    case Assign(r, q) => AssignExact(c, s, r, q, p, handled);
    case Revoke(r, q) => RevokeExact(c, s, r, q, p, handled);
    case Poll(r, fetches) => PollStepExact(c, s, h, r, fetches, p, handled);
    case Invoke(r, op, _) => InvokeExact(c, s, r, op, p, handled);
    case Crash(r) => CrashExact(c, s, r, p, handled);
    case Land(_) =>
  }

  lemma {:induction false} RunExact(c: Config, steps: seq<Step>, p: nat)
    requires c.Valid() && p < c.partitions && Run(c, Init(c), steps).Some? && Orderly(c, steps)
    ensures Exact(Run(c, Init(c), steps).value, p, HandledIn(steps, p))
    decreases |steps|
  {
    if |steps| > 0 {
      var init := steps[..|steps| - 1];
      RunExact(c, init, p);
      InitInv(c);
      var h := RunKeepsInv(c, Init(c), seq(c.partitions, _ => 0), init);
      StepExact(c, Run(c, Init(c), init).value, h, Last(steps), p, HandledIn(init, p));
    }
  }

  // ----- main results -----

  // Without failures, over any number of readers that take over from each
  // other and however polls cut the log: the records of a partition are
  // handled in log order, each exactly once, and while no reader is at work on
  // the partition exactly those before the committed offset were handled.
  lemma {:induction false} EachRecordOnce(c: Config, steps: seq<Step>, p: nat)
    requires c.Valid() && p < c.partitions && Run(c, Init(c), steps).Some? && Orderly(c, steps)
    ensures var s := Run(c, Init(c), steps).value;
            && p < |s.logs| == |s.committed| && HandledIn(steps, p) <= s.logs[p]
            && ((forall r :: Owns(s, r, p) ==> Idle(s, r)) ==> HandledIn(steps, p) == s.logs[p][..Below(s.logs[p], s.committed[p])])
  {
    RunExact(c, steps, p);
    var s, handled := Run(c, Init(c), steps).value, HandledIn(steps, p);
    if r :| Owns(s, r, p) {
      var rd := s.readers[r];
      assert handled + Ahead(rd.local.plan, p) == s.logs[p][..Below(s.logs[p], rd.pos[p])];
      assert handled <= handled + Ahead(rd.local.plan, p);
      if Idle(s, r) {
        IdleOwner(s, r, p, handled);
      }
    }
  }

  lemma {:induction false} QuarantinedWasHandled(c: Config, steps: seq<Step>, q: Quarantined)
    requires Run(c, Init(c), steps).Some? && Orderly(c, steps)
    ensures Run(c, Init(c), steps).value.flight == {}
    ensures q in Run(c, Init(c), steps).value.dlq ==> q.record in HandledIn(steps, q.partition)
    decreases |steps|
  {
    if |steps| > 0 {
      var init, step := steps[..|steps| - 1], Last(steps);
      QuarantinedWasHandled(c, init, q);
      DlqAfter(c, Run(c, Init(c), init).value, step);
    }
  }

  // Only a quarantine call adds to the quarantine topic.
  lemma {:induction false} DlqAfter(c: Config, s: State, step: Step)
    requires Delivery.Enabled(c, s, step) && StepOrderly(s, step) && s.flight == {}
    ensures var t := Delivery.Next(c, s, step);
            && t.flight == {}
            && t.dlq == s.dlq + if step.Invoke? && step.op.Quarantine? then [Quarantined(step.op.partition, step.op.record)] else []
  {
    match step
    case Publish(_, _) =>
    case Join(_) =>
    case Assign(_, _) =>
    case Revoke(_, _) =>
    case Poll(_, _) =>
    case Invoke(_, op, _) => {
      match op
      case Write(_, _) =>
      case Quarantine(_, _) =>
      case Commit(_, _) =>
    }
    case Land(_) =>
    case Crash(_) =>
  }

  lemma {:induction false} NotTwice(rs: seq<Record>, r: Record)
    requires Increasing(rs + [r])
    ensures r !in rs
  {
    IncreasingPairs(rs + [r]);
    forall i | 0 <= i < |rs| ensures rs[i] != r {
      assert (rs + [r])[i] == rs[i] && (rs + [r])[|rs|] == r;
    }
  }

  // Without failures no poison record is quarantined twice.
  lemma {:induction false} QuarantinedOnce(c: Config, steps: seq<Step>)
    requires c.Valid() && Run(c, Init(c), steps).Some? && Orderly(c, steps)
    ensures var dlq := Run(c, Init(c), steps).value.dlq; forall i, j :: 0 <= i < j < |dlq| ==> dlq[i] != dlq[j]
    decreases |steps|
  {
    if |steps| > 0 {
      var init, step := steps[..|steps| - 1], Last(steps);
      var s := Run(c, Init(c), init).value;
      QuarantinedOnce(c, init);
      QuarantinedWasHandled(c, init, Quarantined(0, Record(0, Poison([]))));
      DlqAfter(c, s, step);
      if step.Invoke? && step.op.Quarantine? {
        NewlyQuarantined(c, steps);
      }
    }
  }

  lemma {:induction false} HandledInOrder(c: Config, steps: seq<Step>, p: nat)
    requires c.Valid() && p < c.partitions && Run(c, Init(c), steps).Some? && Orderly(c, steps)
    ensures Increasing(HandledIn(steps, p))
  {
    InitInv(c);
    var h := RunKeepsInv(c, Init(c), seq(c.partitions, _ => 0), steps);
    EachRecordOnce(c, steps, p);
    var s, handled := Run(c, Init(c), steps).value, HandledIn(steps, p);
    assert PartitionOk(c, p, s.logs[p], s.committed[p], h[p]);
    assert s.logs[p] == handled + s.logs[p][|handled|..];
    IncreasingPrefix(handled, s.logs[p][|handled|..]);
  }

  lemma {:induction false} NewlyQuarantined(c: Config, steps: seq<Step>)
    requires c.Valid() && |steps| > 0 && Run(c, Init(c), steps).Some? && Orderly(c, steps)
    requires Last(steps).Invoke? && Last(steps).op.Quarantine?
    ensures var op := Last(steps).op; Quarantined(op.partition, op.record) !in Run(c, Init(c), steps[..|steps| - 1]).value.dlq
  {
    var init, op := steps[..|steps| - 1], Last(steps).op;
    var p := op.partition;
    QuarantinedPartition(c, init, Last(steps));
    HandledInOrder(c, steps, p);
    assert HandledIn(steps, p) == HandledIn(init, p) + [op.record];
    NotTwice(HandledIn(init, p), op.record);
    QuarantinedWasHandled(c, init, Quarantined(p, op.record));
  }

  // A call names a partition there is.
  lemma {:induction false} QuarantinedPartition(c: Config, init: seq<Step>, step: Step)
    requires c.Valid() && Run(c, Init(c), init).Some? && step.Invoke?
    requires Delivery.Enabled(c, Run(c, Init(c), init).value, step)
    ensures step.op.partition < c.partitions
  {
    var s := Run(c, Init(c), init).value;
    InitInv(c);
    var h := RunKeepsInv(c, Init(c), seq(c.partitions, _ => 0), init);
    assert ReaderSafe(s.logs, h, s.readers[step.r]);
    ReaderMoves(s.logs, h, s.readers[step.r]);
  }
}
