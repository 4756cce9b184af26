/** The consumer process: bounded storage retries, partition passes and the poll loop. */
module Worker {
  import opened Basics
  import opened EventTable
  import opened ReaderPlan

  // ----- configuration (durations in nanoseconds) -----

  const MILLISECOND: nat := 1_000_000
  const SECOND: nat := 1_000_000_000

  datatype Config = Config(batchSize: int, attemptTimeout: int, retryWindow: int, backoffMin: int, backoffMax: int)

  function Defaults(c: Config): Config {
    Config(
      if c.batchSize == 0 then 500 else c.batchSize,
      if c.attemptTimeout == 0 then 5 * SECOND else c.attemptTimeout,
      if c.retryWindow == 0 then 15 * SECOND else c.retryWindow,
      if c.backoffMin == 0 then 100 * MILLISECOND else c.backoffMin,
      if c.backoffMax == 0 then 2 * SECOND else c.backoffMax)
  }

  predicate Accepted(c: Config) {
    && 1 <= c.batchSize <= 500
    && c.attemptTimeout > 0
    && 0 < c.retryWindow <= 15 * SECOND
    && 0 < c.backoffMin <= c.backoffMax
  }

  // ----- the retry schedule -----

  function NextBackoff(backoff: nat, max: nat): nat {
    if backoff < max then (if backoff * 2 > max then max else backoff * 2) else backoff
  }

  // The wait after n failed attempts, n >= 1.
  function WaitAfter(backoff: nat, max: nat, n: nat): nat
    decreases n
  {
    if n <= 1 then backoff else WaitAfter(NextBackoff(backoff, max), max, n - 1)
  }

  lemma {:induction false} WaitGrows(backoff: nat, max: nat, n: nat)
    requires n >= 1
    ensures WaitAfter(backoff, max, n + 1) == NextBackoff(WaitAfter(backoff, max, n), max)
    decreases n
  {
    if n > 1 {
      WaitGrows(NextBackoff(backoff, max), max, n - 1);
    }
  }

  // The total of the first n waits.
  function WaitSum(backoff: nat, max: nat, n: nat): nat
    decreases n
  {
    if n == 0 then 0 else backoff + WaitSum(NextBackoff(backoff, max), max, n - 1)
  }

  function MaxWaits(backoff: nat, max: nat, window: nat): nat
    requires backoff > 0
    decreases window
  {
    if backoff > window then 0 else 1 + MaxWaits(NextBackoff(backoff, max), max, window - backoff)
  }

  // MaxWaits is the largest number of waits whose total fits in the window.
  lemma {:induction false} MaxWaitsIsLargest(backoff: nat, max: nat, window: nat, n: nat)
    requires backoff > 0
    ensures WaitSum(backoff, max, n) <= window <==> n <= MaxWaits(backoff, max, window)
    decreases n
  {
    if n > 0 && backoff <= window {
      MaxWaitsIsLargest(NextBackoff(backoff, max), max, window - backoff, n - 1);
    }
  }

  lemma {:induction false} MaxWaitsMonotone(backoff: nat, max: nat, small: nat, large: nat)
    requires backoff > 0 && small <= large
    ensures MaxWaits(backoff, max, small) <= MaxWaits(backoff, max, large)
    decreases small
  {
    if backoff <= small {
      MaxWaitsMonotone(NextBackoff(backoff, max), max, small - backoff, large - backoff);
    }
  }

  // After n failed attempts, with `left` of the window to go: the wait that
  // comes next, and no more waits than the window ever had room for.
  ghost predicate OnSchedule(c: Config, n: nat, backoff: nat, left: int) {
    && Accepted(c) && c.backoffMin <= backoff <= c.backoffMax && left >= 0
    && backoff == WaitAfter(c.backoffMin, c.backoffMax, n + 1)
    && n + MaxWaits(backoff, c.backoffMax, left) <= MaxWaits(c.backoffMin, c.backoffMax, c.retryWindow)
  }

  lemma {:induction false} StaysOnSchedule(c: Config, n: nat, backoff: nat, left: int, spent: nat)
    requires OnSchedule(c, n, backoff, left) && spent + backoff <= left
    ensures OnSchedule(c, n + 1, NextBackoff(backoff, c.backoffMax), left - spent - backoff)
  {
    WaitGrows(c.backoffMin, c.backoffMax, n + 1);
    MaxWaitsMonotone(NextBackoff(backoff, c.backoffMax), c.backoffMax, left - spent - backoff, left - backoff);
  }

  lemma {:induction false} WaitsOfDoublingSchedule(unit: nat)
    requires unit > 0
    ensures MaxWaits(unit, 20 * unit, 150 * unit) == 10
  {
    var top := 20 * unit;
    assert MaxWaits(top, top, 119 * unit) == 5 by {
      assert MaxWaits(top, top, 39 * unit) == 1;
      assert MaxWaits(top, top, 79 * unit) == 3;
    }
    assert MaxWaits(8 * unit, top, 143 * unit) == 2 + MaxWaits(top, top, 119 * unit);
    assert MaxWaits(2 * unit, top, 149 * unit) == 2 + MaxWaits(8 * unit, top, 143 * unit);
  }

  // With every setting left at its default a batch is tried at most 11 times.
  lemma {:induction false} DefaultRetryBound()
    ensures var c := Defaults(Config(0, 0, 0, 0, 0));
            Accepted(c) && 1 + MaxWaits(c.backoffMin, c.backoffMax, c.retryWindow) == 11
  {
    WaitsOfDoublingSchedule(100 * MILLISECOND);
  }

  lemma {:induction false} TriggerSplits(p: nat, source: seq<Record>, rec: Record, rest: seq<Op>)
    requires rec.content.Poison?
    ensures Trigger(p, source, rec) + rest == Flush(p, source) + ([Quarantine(p, rec)] + ([Commit(p, rec)] + rest))
  {
  }

  lemma {:induction false} TriggerParts(p: nat, source: seq<Record>, rec: Record, was: seq<Op>)
    requires rec.content.Poison?
    ensures var flushed := was + Flush(p, source);
            && was + Trigger(p, source, rec) == flushed + [Quarantine(p, rec)] + [Commit(p, rec)]
            && flushed <= was + Trigger(p, source, rec) && flushed + [Quarantine(p, rec)] <= was + Trigger(p, source, rec)
  {
    assert Trigger(p, source, rec) == Flush(p, source) + [Quarantine(p, rec)] + [Commit(p, rec)];
  }

  // Since `was`, nothing but n attempts at op; only the last one may have
  // succeeded.
  ghost predicate Tries(was: seq<Event>, now: seq<Event>, op: Op, n: nat, ok: bool) {
    && was <= now && |now| == |was| + n
    && (forall i :: |was| <= i < |now| ==> now[i] == Called(op, ok && i == |now| - 1))
    && Succeeded(now) == Succeeded(was) + if ok && n > 0 then [op] else []
  }

  lemma {:induction false} OneMoreTry(was: seq<Event>, now: seq<Event>, op: Op, n: nat, ok: bool)
    requires Tries(was, now, op, n, false)
    ensures Tries(was, now + [Called(op, ok)], op, n + 1, ok)
  {
    assert (now + [Called(op, ok)])[..|now|] == now;
  }

  lemma {:induction false} TriesAreWork(was: seq<Event>, now: seq<Event>, op: Op, n: nat, ok: bool)
    requires Tries(was, now, op, n, ok) && (ok ==> n > 0)
    ensures was <= now && forall i :: |was| <= i < |now| ==> now[i].Called?
    ensures Succeeded(now) <= Succeeded(was) + [op] && (ok ==> Succeeded(now) == Succeeded(was) + [op])
  {
  }

  // Doing `part`, up to some point, when it was next on the way to `total`.
  lemma {:induction false} PartOf(was: seq<Op>, part: seq<Op>, left: seq<Op>, total: seq<Op>, now: seq<Op>)
    requires was + (part + left) == total && now <= was + part
    ensures now <= total && (now == was + part ==> now + left == total)
  {
    assert was + (part + left) == was + part + left;
  }

  lemma {:induction false} SameStart(start: seq<Op>, a: seq<Op>, b: seq<Op>)
    requires start + a <= start + b
    ensures a <= b && (start + a == start + b ==> a == b)
  {
    assert a == (start + a)[|start|..] && b == (start + b)[|start|..];
  }

  lemma {:induction false} PassIsConfined(was: seq<Event>, now: seq<Event>, p: nat, size: nat, records: seq<Record>, ok: bool)
    requires size >= 1 && was <= now
    requires var total := Succeeded(was) + Plan(p, size, [], records); Succeeded(now) <= total && (ok ==> Succeeded(now) == total)
    ensures Increasing(records) ==> PassEffects(Succeeded(now[|was|..]), ok, p, size, records)
  {
    var calls := now[|was|..];
    assert now == was + calls;
    SucceededConcat(was, calls);
    SameStart(Succeeded(was), Succeeded(calls), Plan(p, size, [], records));
    if Increasing(records) {
      PlanIsPassPlan(p, size, records);
      PrefixOfPlan(Plan(p, size, [], records), p, size, records, Succeeded(calls));
    }
  }

  lemma {:induction false} PollIsConfined(size: nat, was: seq<Event>, now: seq<Event>, plan: seq<Op>, ok: bool)
    requires was <= now && OnlyCalls(now[|was|..])
    requires Replay(size, Working([]), was) == Some(Working(plan)) && Replay(size, Working([]), now).Some?
    requires ok ==> Replay(size, Working([]), now) == Some(Working([]))
    ensures Succeeded(now[|was|..]) <= plan && (ok ==> Succeeded(now[|was|..]) == plan)
  {
    var calls := now[|was|..];
    assert now == was + calls;
    CallsMakeProgress(size, Working([]), was, calls);
  }

  method Doubled(backoff: nat, max: nat) returns (next: nat)
    requires 0 < backoff <= max
    ensures next == NextBackoff(backoff, max) && backoff <= next <= max
  {
    next := backoff;
    if next < max {
      next := next * 2;
      if next > max {
        next := max;
      }
    }
  }

  // ----- the reader -----

  // A poll that was cancelled, or any other failure to fetch.
  datatype FetchError = PollCancelled | FetchFailed

  // What one poll returns.
  datatype Answer = Answer(fetches: seq<Fetch>, errors: seq<FetchError>)

  class Reader {
    const config: Config
    // Everything this reader did that the rest of the system can see.
    var events: seq<Event>
    var clock: nat

    constructor (c: Config)
      requires Accepted(c)
      ensures config == c && events == [] && Pending([])
    {
      config := c;
      events := [];
      clock := 0;
    }

    // The operations that this reader still owes for its last poll.
    ghost predicate Pending(plan: seq<Op>)
      reads this
    {
      Accepted(config) && Replay(config.batchSize, Working([]), events) == Some(Working(plan))
    }

    // The history only grows, and only by calls.
    twostate predicate CallsAppended()
      reads this
    {
      old(events) <= events && forall i :: |old(events)| <= i < |events| ==> events[i].Called?
    }

    // What was acknowledged since: some of `part`, and all of it after success.
    twostate predicate Worked(part: seq<Op>, ok: bool)
      reads this
    {
      var was, now := Succeeded(old(events)), Succeeded(events);
      now <= was + part && (ok ==> now == was + part)
    }

    // A call that leaves the process; its outcome and duration are up to the
    // other side.
    method Invoke(op: Op, ghost rest: seq<Op>) returns (ok: bool)
      requires Pending([op] + rest)
      modifies this
      ensures events == old(events) + [Called(op, ok)]
      ensures Succeeded(events) == Succeeded(old(events)) + if ok then [op] else []
      ensures clock >= old(clock)
      ensures ok ==> Pending(rest)
      ensures !ok && op.Write? ==> Pending([op] + rest)
      ensures !ok ==> Replay(config.batchSize, Working([]), events).Some?
    {
      ok := *;
      var duration: nat :| true;
      assert (events + [Called(op, ok)])[..|events|] == events;
      assert ([op] + rest)[1..] == rest;
      events := events + [Called(op, ok)];
      clock := clock + duration;
    }

    // Retry one batch until it is stored, the retry window closes or the
    // context is cancelled; it gives up only when the next wait would not end
    // within the window. A wait ends at the earlier of the backoff timer
    // and the end of the window.
    method Persist(p: nat, valid: seq<Envelope>, source: seq<Record>, ghost rest: seq<Op>)
      returns (ok: bool, attempts: nat, cancelled: bool)
      requires source != [] && valid == EventsOf(source)
      requires Pending([Write(p, source)] + rest)
      modifies this
      ensures Tries(old(events), events, Write(p, source), attempts, ok)
      ensures ok ==> attempts > 0 && Pending(rest)
      ensures !ok ==> Pending([Write(p, source)] + rest)
      ensures attempts <= 1 + MaxWaits(config.backoffMin, config.backoffMax, config.retryWindow)
      ensures !ok && !cancelled ==>
                attempts > 0 && clock + WaitAfter(config.backoffMin, config.backoffMax, attempts) >= old(clock) + config.retryWindow
    {
      cancelled := false;
      var deadline := clock + config.retryWindow;
      var backoff: nat := config.backoffMin;
      attempts := 0;
      while true
        invariant OnSchedule(config, attempts, backoff, deadline - clock) && !cancelled
        invariant Tries(old(events), events, Write(p, source), attempts, false)
        invariant Pending([Write(p, source)] + rest)
        decreases deadline - clock
      {
        cancelled := *;
        if cancelled {
          return false, attempts, true;
        }
        ghost var began := clock;
        ghost var before := events;
        ok := Invoke(Write(p, source), rest);
        OneMoreTry(old(events), before, Write(p, source), attempts, ok);
        attempts := attempts + 1;
        if ok {
          return;
        }
        cancelled := *;
        if cancelled {
          return false, attempts, true;
        }
        var timerFirst: bool := *;
        if clock + backoff > deadline || (clock + backoff == deadline && !timerFirst) {
          return false, attempts, false;
        }
        StaysOnSchedule(config, attempts - 1, backoff, deadline - began, clock - began);
        clock := clock + backoff;
        backoff := Doubled(backoff, config.backoffMax);
      }
    }

    method FlushBuffer(p: nat, valid: seq<Envelope>, source: seq<Record>, ghost rest: seq<Op>) returns (ok: bool)
      requires valid == EventsOf(source)
      requires Pending(Flush(p, source) + rest)
      modifies this
      ensures CallsAppended() && Worked(Flush(p, source), ok)
      ensures ok ==> Pending(rest)
      ensures !ok ==> Replay(config.batchSize, Working([]), events).Some?
    {
      if |source| == 0 {
        assert Flush(p, source) + rest == rest;
        return true;
      }
      ghost var later := [Commit(p, Last(source))] + rest;
      assert Flush(p, source) + rest == [Write(p, source)] + later;
      var attempts, cancelled;
      ok, attempts, cancelled := Persist(p, valid, source, later);
      TriesAreWork(old(events), events, Write(p, source), attempts, ok);
      if !ok {
        return;
      }
      ok := Invoke(Commit(p, source[|source| - 1]), rest);
    }

    // A poison record: everything before it first, then its quarantine write,
    // then its own commit.
    method QuarantineRecord(p: nat, rec: Record, valid: seq<Envelope>, source: seq<Record>, ghost rest: seq<Op>)
      returns (ok: bool)
      requires valid == EventsOf(source) && rec.content.Poison?
      requires Pending(Trigger(p, source, rec) + rest)
      modifies this
      ensures CallsAppended() && Worked(Trigger(p, source, rec), ok)
      ensures ok ==> Pending(rest)
      ensures !ok ==> Replay(config.batchSize, Working([]), events).Some?
    {
      ghost var later := [Commit(p, rec)] + rest;
      TriggerSplits(p, source, rec, rest);
      TriggerParts(p, source, rec, Succeeded(events));
      ok := FlushBuffer(p, valid, source, [Quarantine(p, rec)] + later);
      if !ok {
        return;
      }
      ok := Invoke(Quarantine(p, rec), later);
      if !ok {
        return;
      }
      ok := Invoke(Commit(p, rec), rest);
    }

    // One partition's records, in order. What was acknowledged is a part of
    // this partition's plan, and all of it after success; after any failure
    // nothing more is attempted.
    method ProcessPartition(p: nat, records: seq<Record>, ghost rest: seq<Op>) returns (ok: bool)
      requires Accepted(config) && Pending(Plan(p, config.batchSize, [], records) + rest)
      modifies this
      ensures CallsAppended() && Worked(Plan(p, config.batchSize, [], records), ok)
      ensures ok ==> Pending(rest)
      ensures !ok ==> Replay(config.batchSize, Working([]), events).Some?
      ensures Increasing(records) ==> PassEffects(Succeeded(events[|old(events)|..]), ok, p, config.batchSize, records)
    {
      ok := ProcessRecords(p, records, rest);
      PassIsConfined(old(events), events, p, config.batchSize, records, ok);
    }

    method ProcessRecords(p: nat, records: seq<Record>, ghost rest: seq<Op>) returns (ok: bool)
      requires Accepted(config) && Pending(Plan(p, config.batchSize, [], records) + rest)
      modifies this
      ensures CallsAppended() && Worked(Plan(p, config.batchSize, [], records), ok)
      ensures ok ==> Pending(rest)
      ensures !ok ==> Replay(config.batchSize, Working([]), events).Some?
    {
      var valid: seq<Envelope>, source: seq<Record> := [], [];
      var i := 0;
      ghost var total := Succeeded(events) + Plan(p, config.batchSize, [], records);
      assert records[0..] == records;
      while i < |records|
        invariant 0 <= i <= |records|
        invariant valid == EventsOf(source) && |valid| == |source| < config.batchSize
        invariant CallsAppended()
        invariant Succeeded(events) + Plan(p, config.batchSize, source, records[i..]) == total
        invariant Pending(Plan(p, config.batchSize, source, records[i..]) + rest)
      {
        var cancelled: bool := *;
        if cancelled {
          return false;
        }
        var rec := records[i];
        ghost var was, later := Succeeded(events), Plan(p, config.batchSize, [], records[i + 1..]);
        assert records[i..][0] == rec && records[i..][1..] == records[i + 1..];
        if rec.content.Poison? {
          assert Plan(p, config.batchSize, source, records[i..]) + rest == Trigger(p, source, rec) + (later + rest);
          ok := QuarantineRecord(p, rec, valid, source, later + rest);
          PartOf(was, Trigger(p, source, rec), later, total, Succeeded(events));
          if !ok {
            return;
          }
          valid, source := [], [];
        } else {
          assert (source + [rec])[..|source|] == source;
          if |valid| + 1 >= config.batchSize {
            assert Plan(p, config.batchSize, source, records[i..]) + rest == Flush(p, source + [rec]) + (later + rest);
          }
          valid := valid + [rec.content.event];
          source := source + [rec];
          if |valid| >= config.batchSize {
            ok := FlushBuffer(p, valid, source, later + rest);
            PartOf(was, Flush(p, source), later, total, Succeeded(events));
            if !ok {
              return;
            }
            valid, source := [], [];
          }
        }
        i := i + 1;
      }
      ok := FlushBuffer(p, valid, source, rest);
    }

    // All partitions of one poll. The first failure ends the pass, and fetch
    // errors are reported after the fetched records were processed; the
    // cancelled poll of a stopping reader is no error. What was acknowledged
    // is a part of the poll's plan, in order, and all of it after success.
    method ProcessFetched(fetches: seq<Fetch>, errors: seq<FetchError>, ignorePollCancel: bool) returns (ok: bool)
      requires Accepted(config) && Pending(PlanOf(config.batchSize, fetches))
      modifies this
      ensures CallsAppended()
      ensures ok ==> Pending([])
      ensures ok && |errors| > 0 ==> ignorePollCancel && forall i :: 0 <= i < |errors| ==> errors[i].PollCancelled?
      ensures !ok ==> Replay(config.batchSize, Working([]), events).Some?
      ensures Succeeded(events[|old(events)|..]) <= PlanOf(config.batchSize, fetches)
      ensures ok ==> Succeeded(events[|old(events)|..]) == PlanOf(config.batchSize, fetches)
    {
      ok := ProcessAll(fetches);
      PollIsConfined(config.batchSize, old(events), events, PlanOf(config.batchSize, fetches), ok);
      if !ok {
        return;
      }
      var i := 0;
      while i < |errors|
        invariant 0 <= i <= |errors|
        invariant i > 0 ==> ignorePollCancel
        invariant forall j :: 0 <= j < i ==> errors[j].PollCancelled?
      {
        var cancelled: bool := *;
        if !(ignorePollCancel && errors[i].PollCancelled? && !cancelled) {
          return false;
        }
        i := i + 1;
      }
      var cancelled: bool := *;
      ok := !cancelled;
    }

    method ProcessAll(fetches: seq<Fetch>) returns (ok: bool)
      requires Accepted(config) && Pending(PlanOf(config.batchSize, fetches))
      modifies this
      ensures CallsAppended()
      ensures ok ==> Pending([])
      ensures !ok ==> Replay(config.batchSize, Working([]), events).Some?
    {
      var i := 0;
      assert fetches[0..] == fetches;
      while i < |fetches|
        invariant 0 <= i <= |fetches|
        invariant CallsAppended()
        invariant Pending(PlanOf(config.batchSize, fetches[i..]))
      {
        assert fetches[i..][1..] == fetches[i + 1..];
        if |fetches[i].records| > 0 {
          ok := ProcessPartition(fetches[i].partition, fetches[i].records, PlanOf(config.batchSize, fetches[i + 1..]));
          if !ok {
            return;
          }
        } else {
          assert Plan(fetches[i].partition, config.batchSize, [], fetches[i].records) == [];
          assert PlanOf(config.batchSize, fetches[i..]) == PlanOf(config.batchSize, fetches[i + 1..]);
        }
        i := i + 1;
      }
      ok := true;
    }

    // The poll loop, for any finite number of answers from the broker. A
    // failed pass ends the reader: it never polls again, so no later commit
    // of its own can pass over a record that was not handled.
    method Run(answers: seq<Answer>) returns (ok: bool)
      requires Pending([])
      modifies this
      ensures Replay(config.batchSize, Working([]), events).Some?
      ensures old(events) <= events
      ensures ok ==> Pending([])
    {
      var i := 0;
      while i < |answers|
        invariant 0 <= i <= |answers|
        invariant Pending([])
        invariant old(events) <= events
      {
        var stopping: bool := *;
        if stopping {
          return true;
        }
        var Answer(fetches, errors) := answers[i];
        assert (events + [Polled(fetches)])[..|events|] == events;
        events := events + [Polled(fetches)];
        stopping := *;
        ok := ProcessFetched(fetches, errors, stopping);
        if !ok {
          return;
        }
        if stopping {
          return true;
        }
        i := i + 1;
      }
      return true;
    }
  }
}
