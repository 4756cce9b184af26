/**
  * What overlapping, failing readers add up to: the outcome of one crash-free
  * reader, from which a replacement can always finish the work.
  */
module Recovery {
  import opened Basics
  import opened EventTable
  import opened ReaderPlan
  import opened Delivery
  import opened Resumption

  // ----- one crash-free reader -----

  // All operations of a plan, applied in order.
  function Effects(s: State, plan: seq<Op>): State
    decreases |plan|
  {
    if |plan| == 0 then s else Effects(Effect(s, plan[0]), plan[1..])
  }

  function FetchFrom(logs: seq<seq<Record>>, p: nat): seq<Fetch>
    decreases |logs| - p
  {
    if p >= |logs| then [] else [Fetch(p, logs[p])] + FetchFrom(logs, p + 1)
  }

  function FromStart(n: nat): (pos: map<nat, nat>)
    ensures forall p :: p in pos <==> 0 <= p < n
    ensures forall p :: p in pos ==> pos[p] == 0
  {
    if n == 0 then map[] else FromStart(n - 1)[n - 1 := 0]
  }

  function Fresh(logs: seq<seq<Record>>): State {
    State(logs, seq(|logs|, _ => 0), map[], [], map[], {})
  }

  // One reader polls every partition from the start and nothing fails.
  function CrashFree(c: Config, logs: seq<seq<Record>>): State {
    Effects(Fresh(logs), PlanOf(c.size, FetchFrom(logs, 0)))
  }

  function Truncate(logs: seq<seq<Record>>, h: Frontier): seq<seq<Record>> {
    seq(|logs|, p requires 0 <= p < |logs| => Prefix(logs, h, p))
  }

  lemma {:induction false} EffectsKeepInv(c: Config, s: State, h: Frontier, plan: seq<Op>)
    requires Inv(c, s, h) && PlanSafe(s.logs, h, plan)
    ensures Inv(c, Effects(s, plan), RaiseAll(s.logs, h, plan)) && Effects(s, plan).logs == s.logs
    decreases |plan|
  {
    if |plan| > 0 {
      EffectKeepsInv(c, s, h, plan[0]);
      EffectsKeepInv(c, Effect(s, plan[0]), Raise(s.logs, h, plan[0]), plan[1..]);
    }
  }

  lemma {:induction false} BelowEnd(log: seq<Record>)
    ensures Below(log, EndOffset(log)) == |log|
  {
  }

  lemma {:induction false} FreshInv(c: Config, logs: seq<seq<Record>>)
    requires c.Valid() && |logs| == c.partitions && forall p :: 0 <= p < |logs| ==> LogOk(c, p, logs[p])
    ensures Inv(c, Fresh(logs), seq(|logs|, _ => 0))
  {
    var h := seq(|logs|, _ => 0);
    forall p | 0 <= p < |logs| ensures PartitionOk(c, p, logs[p], 0, 0) {
      BelowSplits(logs[p], 0);
      assert logs[p] != [] && Below(logs[p], 0) > 0 ==> logs[p][0].offset < 0;
    }
    assert forall p :: Prefix(logs, h, p) == [];
  }

  // Polling every partition from `from` on reads each log to its end.
  lemma {:induction false} FetchFromReadsAll(logs: seq<seq<Record>>, pos: map<nat, nat>, from: nat)
    requires forall p :: from <= p < |logs| ==> p in pos && pos[p] == 0
    requires forall p :: 0 <= p < |logs| ==> Increasing(logs[p])
    requires forall p :: 0 <= p < from && p < |logs| ==> p in pos && pos[p] == EndOffset(logs[p])
    ensures Fetched(logs, pos, FetchFrom(logs, from))
    ensures var q := AdvanceAll(pos, FetchFrom(logs, from));
            forall p :: 0 <= p < |logs| ==> p in q && q[p] == EndOffset(logs[p])
    decreases |logs| - from
  {
    if from < |logs| {
      var f, log := Fetch(from, logs[from]), logs[from];
      BelowSplits(log, 0);
      assert log != [] && Below(log, 0) > 0 ==> log[0].offset < 0;
      AtSlice(log, 0, log);
      assert log[0..|log|] == log;
      FetchFromReadsAll(logs, Advance(pos, f), from + 1);
    }
  }

  function Lengths(logs: seq<seq<Record>>): Frontier {
    seq(|logs|, p requires 0 <= p < |logs| => |logs[p]|)
  }

  // The plan of reading everything is safe and carries every partition to its end.
  lemma {:induction false} FullPlanCarries(c: Config, logs: seq<seq<Record>>, zero: Frontier)
    requires FrontierOk(c, Fresh(logs), zero)
    ensures PlanSafe(logs, zero, PlanOf(c.size, FetchFrom(logs, 0)))
    ensures Leq(Lengths(logs), RaiseAll(logs, zero, PlanOf(c.size, FetchFrom(logs, 0))))
  {
    var pos, fetches := FromStart(|logs|), FetchFrom(logs, 0);
    forall p | 0 <= p < |logs| ensures Increasing(logs[p]) && Below(logs[p], 0) <= zero[p] {
      assert PartitionOk(c, p, logs[p], 0, zero[p]);
    }
    FetchFromReadsAll(logs, pos, 0);
    PollSafe(logs, zero, c.size, pos, fetches);
    var end := AdvanceAll(pos, fetches);
    forall p | 0 <= p < |logs| ensures Below(logs[p], EndOffset(logs[p])) == |logs[p]| && p in end {
      BelowEnd(logs[p]);
    }
  }

  lemma {:induction false} CrashFreeReadsAll(c: Config, logs: seq<seq<Record>>)
    requires c.Valid() && |logs| == c.partitions && forall p :: 0 <= p < |logs| ==> LogOk(c, p, logs[p])
    ensures Inv(c, CrashFree(c, logs), Lengths(logs))
    ensures CrashFree(c, logs).logs == logs
  {
    var zero := seq(|logs|, _ => 0);
    FreshInv(c, logs);
    FullPlanCarries(c, logs, zero);
    var plan := PlanOf(c.size, FetchFrom(logs, 0));
    EffectsKeepInv(c, Fresh(logs), zero, plan);
    FrontierIsLengths(c, Effects(Fresh(logs), plan), RaiseAll(logs, zero, plan));
  }

  lemma {:induction false} FrontierIsLengths(c: Config, s: State, g: Frontier)
    requires FrontierOk(c, s, g) && Leq(Lengths(s.logs), g)
    ensures g == Lengths(s.logs)
  {
    forall p | 0 <= p < |g| ensures g[p] == Lengths(s.logs)[p] {
      assert PartitionOk(c, p, s.logs[p], s.committed[p], g[p]);
    }
  }

  lemma {:induction false} TruncateOk(c: Config, s: State, h: Frontier)
    requires FrontierOk(c, s, h)
    ensures forall p :: 0 <= p < |s.logs| ==> LogOk(c, p, Truncate(s.logs, h)[p])
  {
    forall p | 0 <= p < |s.logs| ensures LogOk(c, p, Truncate(s.logs, h)[p]) {
      var log := s.logs[p];
      assert PartitionOk(c, p, log, s.committed[p], h[p]);
      assert log == log[..h[p]] + log[h[p]..];
      IncreasingPrefix(log[..h[p]], log[h[p]..]);
    }
  }

  // In every reachable state the table and the quarantine topic hold exactly
  // what one crash-free reader would have stored and quarantined from some
  // prefix of each partition's log.
  lemma {:induction false} SameAsCrashFree(c: Config, s: State) returns (h: Frontier)
    requires Reachable(c, s)
    ensures FrontierOk(c, s, h)
    ensures var clean := CrashFree(c, Truncate(s.logs, h));
            s.table == clean.table && forall q :: q in s.dlq <==> q in clean.dlq
  {
    h := ReachableInv(c, s);
    TruncateOk(c, s, h);
    var logs := Truncate(s.logs, h);
    var full := Lengths(logs);
    CrashFreeReadsAll(c, logs);
    var clean := CrashFree(c, logs);
    forall p: nat ensures Prefix(s.logs, h, p) == Prefix(logs, full, p) {
      if p < |logs| {
        assert PartitionOk(c, p, s.logs[p], s.committed[p], h[p]);
        assert logs[p][..full[p]] == logs[p];
      }
    }
    forall k ensures Lookup(s.table, k) == Lookup(clean.table, k) {
      assert Lookup(clean.table, k) == FirstIn(Prefix(logs, full, c.route(k)), k);
    }
    SameLookups(s.table, clean.table);
    forall q ensures q in s.dlq <==> q in clean.dlq {
      assert q == Quarantined(q.partition, q.record);
    }
  }

  // ----- a replacement can always finish -----

  lemma {:induction false} RunOne(c: Config, s: State, step: Step)
    requires Delivery.Enabled(c, s, step)
    ensures Run(c, s, [step]) == Some(Delivery.Next(c, s, step))
  {
    assert [step][..0] == [];
    assert Run(c, s, [step][..0]) == Some(s);
  }

  // No new records: only readers act.
  ghost predicate ReadersOnly(steps: seq<Step>) {
    forall i :: 0 <= i < |steps| ==> !steps[i].Publish?
  }

  // The steps handle of each partition what the plan says, and leave its
  // offset where the plan says.
  ghost predicate FollowsPlan(steps: seq<Step>, plan: seq<Op>, before: seq<nat>, after: seq<nat>) {
    && |after| == |before|
    && forall q: nat :: HandledIn(steps, q) == Ahead(plan, q) && (q < |before| ==> after[q] == CommittedBy(plan, q, before[q]))
  }

  // The first call, and what is left for the others.
  lemma {:induction false} FollowsFirst(c: Config, s: State, r: nat, steps: seq<Step>, after: seq<nat>)
    requires r in s.readers && s.readers[r].local.Working? && |s.readers[r].local.plan| > 0
    requires var plan := s.readers[r].local.plan;
             FollowsPlan(steps, plan[1..], Delivery.Next(c, s, Invoke(r, plan[0], true)).committed, after)
    ensures FollowsPlan([Invoke(r, s.readers[r].local.plan[0], true)] + steps, s.readers[r].local.plan, s.committed, after)
  {
    var plan := s.readers[r].local.plan;
    var step := Invoke(r, plan[0], true);
    assert plan == [plan[0]] + plan[1..];
    forall q: nat
      ensures HandledIn([step] + steps, q) == Ahead(plan, q) && (q < |s.committed| ==> after[q] == CommittedBy(plan, q, s.committed[q]))
    {
      HandledInConcat([step], steps, q);
      HandledInOne(step, q);
      HeadIsDone(plan[0], plan[1..], q, if q < |s.committed| then s.committed[q] else 0);
    }
  }

  // Execute a reader's pending operations, all successful.
  lemma {:induction false} FinishPlan(c: Config, s: State, r: nat) returns (steps: seq<Step>, t: State)
    requires r in s.readers && s.readers[r].local.Working?
    ensures Run(c, s, steps) == Some(t) && t.logs == s.logs && ReadersOnly(steps)
    ensures Idle(t, r) && t.readers[r].pos == s.readers[r].pos
    ensures FollowsPlan(steps, s.readers[r].local.plan, s.committed, t.committed)
    decreases |s.readers[r].local.plan|
  {
    var plan := s.readers[r].local.plan;
    if |plan| == 0 {
      steps, t := [], s;
    } else {
      var step := Invoke(r, plan[0], true);
      RunOne(c, s, step);
      steps, t := FinishPlan(c, Delivery.Next(c, s, step), r);
      RunConcat(c, s, [step], steps);
      FollowsFirst(c, s, r, steps, t.committed);
      steps := [step] + steps;
    }
  }

  // The records of partition p from the committed offset on.
  function Uncommitted(s: State, p: nat): seq<Record>
    requires p < |s.logs| && p < |s.committed|
  {
    s.logs[p][Below(s.logs[p], s.committed[p])..]
  }

  // Assign one partition to an idle reader and poll it to the end.
  lemma {:induction false} PollToEnd(c: Config, s: State, h: Frontier, r: nat, p: nat) returns (steps: seq<Step>, t: State)
    requires Inv(c, s, h) && Idle(s, r) && p < c.partitions
    ensures Run(c, s, steps) == Some(t) && t.logs == s.logs && ReadersOnly(steps) && t.committed == s.committed
    ensures r in t.readers && t.readers[r].local == Working(PlanOf(c.size, [Fetch(p, Uncommitted(s, p))])) && p in t.readers[r].pos
    ensures Below(s.logs[p], t.readers[r].pos[p]) == |s.logs[p]| && forall q: nat :: HandledIn(steps, q) == []
  {
    var log, from := s.logs[p], Below(s.logs[p], s.committed[p]);
    assert PartitionOk(c, p, log, s.committed[p], h[p]);
    var assign, poll := Assign(r, p), Poll(r, [Fetch(p, log[from..])]);
    RunOne(c, s, assign);
    var s1 := Delivery.Next(c, s, assign);
    AtSlice(log, from, log[from..]);
    assert Fetched(s1.logs, s1.readers[r].pos, poll.fetches) by {
      assert poll.fetches[1..] == [];
    }
    RunOne(c, s1, poll);
    RunConcat(c, s, [assign], [poll]);
    t := Delivery.Next(c, s1, poll);
    steps := [assign] + [poll];
    assert AdvanceAll(s1.readers[r].pos, poll.fetches) == Advance(s1.readers[r].pos, poll.fetches[0]);
    if from < |log| {
      assert Last(log[from..]) == Last(log);
      BelowEnd(log);
    }
    forall q: nat ensures HandledIn(steps, q) == [] {
      HandledInConcat([assign], [poll], q);
      HandledInOne(assign, q);
      HandledInOne(poll, q);
    }
  }

  // What the plan for one fetch does to any partition.
  lemma {:induction false} OneFetch(size: nat, p: nat, rs: seq<Record>, q: nat, o: nat)
    requires size >= 1
    ensures var plan := PlanOf(size, [Fetch(p, rs)]);
            && Ahead(plan, q) == (if q == p then rs else [])
            && CommittedBy(plan, q, o) == if q == p then Moved(o, rs) else o
  {
    var fetches := [Fetch(p, rs)];
    assert fetches[1..] == [];
    assert PlanOf(size, fetches[1..]) == [];
    assert PlanOf(size, fetches) == Plan(p, size, [], rs);
    if q == p {
      FetchPlan(p, size, rs, o);
    } else {
      OtherFetchPlan(p, size, rs, q, o);
    }
  }

  // ... and finish what it owes: exactly the records that were not committed.
  lemma {:induction false} DrainPartition(c: Config, s: State, h: Frontier, r: nat, p: nat)
    returns (steps: seq<Step>, t: State, g: Frontier)
    requires Inv(c, s, h) && Idle(s, r) && p < c.partitions
    ensures Run(c, s, steps) == Some(t) && t.logs == s.logs && Idle(t, r) && ReadersOnly(steps)
    ensures Inv(c, t, g) && Leq(h, g) && g[p] == |s.logs[p]|
    ensures forall q: nat :: HandledIn(steps, q) == if q == p then Uncommitted(s, p) else []
    ensures forall q: nat :: q < |s.committed| && q != p ==> q < |t.committed| && t.committed[q] == s.committed[q]
  {
    var first, mid := PollToEnd(c, s, h, r, p);
    var rest;
    rest, t := FinishPlan(c, mid, r);
    RunConcat(c, s, first, rest);
    steps := first + rest;
    g := RunKeepsInv(c, s, h, steps);
    assert ReaderSafe(t.logs, g, t.readers[r]);
    assert PartitionOk(c, p, s.logs[p], t.committed[p], g[p]);
    forall q: nat
      ensures HandledIn(steps, q) == if q == p then Uncommitted(s, p) else []
      ensures q < |s.committed| && q != p ==> q < |t.committed| && t.committed[q] == s.committed[q]
    {
      HandledInConcat(first, rest, q);
      OneFetch(c.size, p, Uncommitted(s, p), q, if q < |s.committed| then s.committed[q] else 0);
    }
  }

  // The steps handle exactly the uncommitted records of the first n partitions.
  ghost predicate HandlesRest(steps: seq<Step>, s: State, n: nat) {
    forall q: nat :: q < |s.logs| && q < |s.committed| ==> HandledIn(steps, q) == if q < n then Uncommitted(s, q) else []
  }

  lemma {:induction false} DrainAll(c: Config, s: State, h: Frontier, r: nat, n: nat)
    returns (steps: seq<Step>, t: State, g: Frontier)
    requires Inv(c, s, h) && Idle(s, r) && n <= c.partitions
    ensures Run(c, s, steps) == Some(t) && t.logs == s.logs && Idle(t, r) && ReadersOnly(steps)
    ensures Inv(c, t, g) && Leq(h, g) && forall p :: 0 <= p < n ==> g[p] == |s.logs[p]|
    ensures HandlesRest(steps, s, n)
    ensures forall q: nat :: n <= q < |s.committed| ==> q < |t.committed| && t.committed[q] == s.committed[q]
    decreases n
  {
    if n == 0 {
      steps, t, g := [], s, h;
    } else {
      var first, mid, f := DrainAll(c, s, h, r, n - 1);
      var last;
      last, t, g := DrainPartition(c, mid, f, r, n - 1);
      RunConcat(c, s, first, last);
      steps := first + last;
      forall p | 0 <= p < n ensures g[p] == |s.logs[p]| {
        assert PartitionOk(c, p, t.logs[p], t.committed[p], g[p]);
      }
      forall q: nat | q < |s.logs| && q < |s.committed| ensures HandledIn(steps, q) == if q < n then Uncommitted(s, q) else [] {
        HandledInConcat(first, last, q);
      }
    }
  }

  // From every state of the invariant, whatever failed before, one replacement
  // reader that meets no failure brings every record of every log into the
  // table or the quarantine topic, and handles exactly the records that were
  // not committed, each once and in order.
  lemma {:induction false} ReplacementFinishes(c: Config, s: State, h: Frontier, r: nat)
    returns (steps: seq<Step>, t: State, g: Frontier)
    requires Inv(c, s, h) && r !in s.readers
    ensures Run(c, s, steps) == Some(t) && t.logs == s.logs && ReadersOnly(steps)
    ensures Inv(c, t, g) && g == Lengths(s.logs)
    ensures HandlesRest(steps, s, c.partitions)
  {
    RunOne(c, s, Join(r));
    var s1 := Delivery.Next(c, s, Join(r));
    var h1 := StepKeepsInv(c, s, h, Join(r));
    var rest;
    rest, t, g := DrainAll(c, s1, h1, r, c.partitions);
    RunConcat(c, s, [Join(r)], rest);
    steps := [Join(r)] + rest;
    assert g == Lengths(s.logs);
    forall q: nat ensures HandledIn(steps, q) == HandledIn(rest, q) {
      HandledInConcat([Join(r)], rest, q);
      HandledInOne(Join(r), q);
    }
  }

  lemma {:induction false} RecoveryCompletes(c: Config, s: State, r: nat) returns (steps: seq<Step>, t: State)
    requires Reachable(c, s) && r !in s.readers
    ensures Run(c, s, steps) == Some(t) && t.logs == s.logs
    ensures forall p, i :: 0 <= p < |t.logs| && 0 <= i < |t.logs[p]| ==> Handled(t, p, i)
    ensures t.table == CrashFree(c, s.logs).table
  {
    var h := ReachableInv(c, s);
    var g;
    steps, t, g := ReplacementFinishes(c, s, h, r);
    forall p, i | 0 <= p < |t.logs| && 0 <= i < |t.logs[p]| ensures Handled(t, p, i) {
      PrefixIsHandled(c, t, g, p, i);
    }
    forall p | 0 <= p < |s.logs| ensures LogOk(c, p, s.logs[p]) {
      assert PartitionOk(c, p, s.logs[p], s.committed[p], h[p]);
    }
    CrashFreeReadsAll(c, s.logs);
    forall k ensures Lookup(t.table, k) == Lookup(CrashFree(c, s.logs).table, k) {
      assert Lookup(t.table, k) == FirstIn(Prefix(s.logs, g, c.route(k)), k);
    }
    SameLookups(t.table, CrashFree(c, s.logs).table);
  }

  // ----- why a failure must end the reader -----

  // A reader that drops the rest of its plan after a failure and polls on.
  function CarryOn(s: State, r: nat): State
    requires r in s.readers
  {
    s.(readers := s.readers[r := s.readers[r].(local := Working([]))])
  }

  lemma {:induction false} Then(c: Config, s: State, steps: seq<Step>, t: State, step: Step)
    requires Run(c, s, steps) == Some(t) && Delivery.Enabled(c, t, step)
    ensures Run(c, s, steps + [step]) == Some(Delivery.Next(c, t, step))
  {
    assert (steps + [step])[..|steps|] == steps;
  }

  const SINGLE := Delivery.Config(1, 1, _ => 0)

  // One partition with two records and a reader 0 there.
  function TwoRecords(a: Record, b: Record, rd: Reader): State {
    State([[a, b]], [0], map[], [], map[0 := rd], {})
  }

  lemma {:induction false} PollOne(a: Record, b: Record, from: nat, r: Record)
    requires a.offset == 0 && b.offset == 1 && a.content.Valid? && b.content.Valid?
    requires (from == 0 && r == a) || (from == 1 && r == b)
    ensures Fetched([[a, b]], map[0 := from], [Fetch(0, [r])])
    ensures AdvanceAll(map[0 := from], [Fetch(0, [r])]) == map[0 := from + 1]
    ensures PlanOf(1, [Fetch(0, [r])]) == [Write(0, [r]), Commit(0, r)]
  {
    var log, f := [a, b], [Fetch(0, [r])];
    assert log[..1] == [a];
    assert Below(log, from) == from by {
      assert Below([a], from) == from;
    }
    assert [r][..0] == [] && At(log, from, [r]);
    assert f[1..] == [];
    assert Advance(map[0 := from], f[0]) == map[0 := from + 1];
    assert PlanOf(1, f) == Plan(0, 1, [], [r]) + PlanOf(1, f[1..]);
    assert Plan(0, 1, [], [r]) == Flush(0, [] + [r]) + Plan(0, 1, [], [r][1..]);
    assert [] + [r] == [r];
  }

  // Reader 0 polls one record.
  lemma {:induction false} PollNext(a: Record, b: Record, from: nat, r: Record, flight: set<Op>)
    requires a.offset == 0 && b.offset == 1 && a.content.Valid? && b.content.Valid?
    requires (from == 0 && r == a) || (from == 1 && r == b)
    ensures var s := TwoRecords(a, b, Reader(map[0 := from], Working([]))).(flight := flight);
            && Delivery.Enabled(SINGLE, s, Poll(0, [Fetch(0, [r])]))
            && Delivery.Next(SINGLE, s, Poll(0, [Fetch(0, [r])]))
                 == TwoRecords(a, b, Reader(map[0 := from + 1], Working([Write(0, [r]), Commit(0, r)]))).(flight := flight)
  {
    PollOne(a, b, from, r);
    var before := Reader(map[0 := from], Working([]));
    var after := Reader(map[0 := from + 1], Working([Write(0, [r]), Commit(0, r)]));
    assert ReaderPlan.Next(1, before.local, Polled([Fetch(0, [r])])) == after.local;
    assert map[0 := before][0 := after] == map[0 := after];
  }

  // Both records are published and reader 0 joins and is assigned the partition.
  lemma {:induction false} TwoPublished(a: Record, b: Record) returns (steps: seq<Step>)
    requires a.offset == 0 && b.offset == 1 && a.content.Valid? && b.content.Valid?
    ensures Run(SINGLE, Init(SINGLE), steps) == Some(State([[a, b]], [0], map[], [], map[], {}))
  {
    var s0 := Init(SINGLE);
    assert s0.logs == [[]] && s0.committed == [0];
    assert [] + [a] == [a] && [a] + [b] == [a, b];
    var s1 := s0.(logs := [[a]]);
    RunOne(SINGLE, s0, Publish(0, a));
    assert Delivery.Next(SINGLE, s0, Publish(0, a)) == s1;
    Then(SINGLE, s0, [Publish(0, a)], s1, Publish(0, b));
    steps := [Publish(0, a)] + [Publish(0, b)];
    assert s1.logs[0 := [a, b]] == [[a, b]];
  }

  lemma {:induction false} ReaderAssigned(a: Record, b: Record) returns (steps: seq<Step>)
    requires a.offset == 0 && b.offset == 1 && a.content.Valid? && b.content.Valid?
    ensures Run(SINGLE, Init(SINGLE), steps) == Some(TwoRecords(a, b, Reader(map[0 := 0], Working([]))))
  {
    steps := TwoPublished(a, b);
    var s0 := Run(SINGLE, Init(SINGLE), steps).value;
    Then(SINGLE, Init(SINGLE), steps, s0, Join(0));
    steps := steps + [Join(0)];
    var s1 := TwoRecords(a, b, Reader(map[], Working([])));
    assert Delivery.Next(SINGLE, s0, Join(0)) == s1;
    Then(SINGLE, Init(SINGLE), steps, s1, Assign(0, 0));
    steps := steps + [Assign(0, 0)];
    assert Delivery.Next(SINGLE, s1, Assign(0, 0)) == TwoRecords(a, b, Reader(map[0 := 0], Working([])));
  }

  lemma {:induction false} ReaderPolls(a: Record, b: Record) returns (steps: seq<Step>)
    requires a.offset == 0 && b.offset == 1 && a.content.Valid? && b.content.Valid?
    ensures Run(SINGLE, Init(SINGLE), steps)
         == Some(TwoRecords(a, b, Reader(map[0 := 1], Working([Write(0, [a]), Commit(0, a)]))))
  {
    steps := ReaderAssigned(a, b);
    PollNext(a, b, 0, a, {});
    Then(SINGLE, Init(SINGLE), steps, TwoRecords(a, b, Reader(map[0 := 0], Working([]))), Poll(0, [Fetch(0, [a])]));
    steps := steps + [Poll(0, [Fetch(0, [a])])];
  }

  // The reader's write of the first record fails and never takes effect.
  lemma {:induction false} FirstWriteFails(a: Record, b: Record) returns (steps: seq<Step>)
    requires a.offset == 0 && b.offset == 1 && a.content.Valid? && b.content.Valid?
    ensures Run(SINGLE, Init(SINGLE), steps)
         == Some(TwoRecords(a, b, Reader(map[0 := 1], Working([Write(0, [a]), Commit(0, a)]))).(flight := {Write(0, [a])}))
  {
    steps := ReaderPolls(a, b);
    var s := TwoRecords(a, b, Reader(map[0 := 1], Working([Write(0, [a]), Commit(0, a)])));
    Then(SINGLE, Init(SINGLE), steps, s, Invoke(0, Write(0, [a]), false));
    steps := steps + [Invoke(0, Write(0, [a]), false)];
    assert s.flight + {Write(0, [a])} == {Write(0, [a])};
    assert Delivery.Next(SINGLE, s, Invoke(0, Write(0, [a]), false)).readers == s.readers;
  }

  // Polling on, it stores and commits the second record.
  lemma {:induction false} SecondRecordPolled(a: Record, b: Record, flight: set<Op>) returns (more: seq<Step>)
    requires a.offset == 0 && b.offset == 1 && a.content.Valid? && b.content.Valid?
    ensures Run(SINGLE, TwoRecords(a, b, Reader(map[0 := 1], Working([]))).(flight := flight), more)
         == Some(TwoRecords(a, b, Reader(map[0 := 2], Working([Write(0, [b]), Commit(0, b)]))).(flight := flight))
  {
    PollNext(a, b, 1, b, flight);
    more := [Poll(0, [Fetch(0, [b])])];
    RunOne(SINGLE, TwoRecords(a, b, Reader(map[0 := 1], Working([]))).(flight := flight), more[0]);
  }

  lemma {:induction false} OneRow(e: Envelope)
    ensures InsertAll(map[], [e]) == map[KeyOf(e) := e]
    ensures EventsOf([Record(1, Valid(e))]) == [e]
  {
    assert [e][..0] == [];
    assert [Record(1, Valid(e))][..0] == [];
    assert InsertAll(map[], [e]) == Insert(InsertAll(map[], []), e);
  }

  lemma {:induction false} SecondRecordCommits(a: Record, b: Record, flight: set<Op>) returns (more: seq<Step>, t: State)
    requires a.offset == 0 && b.offset == 1 && a.content.Valid? && b.content.Valid?
    ensures Run(SINGLE, TwoRecords(a, b, Reader(map[0 := 1], Working([]))).(flight := flight), more) == Some(t)
    ensures t.logs == [[a, b]] && t.committed == [2] && t.table == map[KeyOf(b.content.event) := b.content.event]
  {
    var s0 := TwoRecords(a, b, Reader(map[0 := 1], Working([]))).(flight := flight);
    more := SecondRecordPolled(a, b, flight);
    var s1 := Run(SINGLE, s0, more).value;
    var write, commit := Invoke(0, Write(0, [b]), true), Invoke(0, Commit(0, b), true);
    Then(SINGLE, s0, more, s1, write);
    more := more + [write];
    var s2 := Delivery.Next(SINGLE, s1, write);
    OneRow(b.content.event);
    assert s1.readers[0].local.plan[1..] == [Commit(0, b)];
    Then(SINGLE, s0, more, s2, commit);
    more := more + [commit];
    t := Delivery.Next(SINGLE, s2, commit);
  }

  // With such a reader the guarantee is lost: its next commit passes over the
  // record whose write failed.
  lemma {:induction false} CarryingOnLosesARecord(a: Envelope, b: Envelope) returns (steps: seq<Step>, s: State, more: seq<Step>, t: State)
    requires KeyOf(a) != KeyOf(b)
    ensures SINGLE.Valid() && Run(SINGLE, Init(SINGLE), steps) == Some(s) && 0 in s.readers
    ensures Run(SINGLE, CarryOn(s, 0), more) == Some(t)
    ensures |t.logs| == |t.committed| == 1 && |t.logs[0]| > 0
    ensures t.logs[0][0].offset < t.committed[0] && !Handled(t, 0, 0)
  {
    var ra, rb := Record(0, Valid(a)), Record(1, Valid(b));
    steps := FirstWriteFails(ra, rb);
    s := Run(SINGLE, Init(SINGLE), steps).value;
    assert CarryOn(s, 0) == TwoRecords(ra, rb, Reader(map[0 := 1], Working([]))).(flight := s.flight);
    more, t := SecondRecordCommits(ra, rb, s.flight);
    assert t.logs[0][0] == ra;
  }
}
