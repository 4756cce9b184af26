/**
  * The load driver's request flow: a scheduler, a pool of workers and one
  * accounting loop that communicate through bounded channels, in every
  * interleaving and with cancellation at any moment.
  */
module LoadDriver {
  import opened Basics

  // ----- planned work -----

  // The ids are sent in jobs of `batch`, the last one possibly shorter.
  function Sizes(planned: nat, batch: nat): (sizes: seq<nat>)
    requires batch > 0
    ensures forall i :: 0 <= i < |sizes| ==> 0 < sizes[i] <= batch
    decreases planned
  {
    if planned == 0 then []
    else if planned <= batch then [planned]
    else [batch] + Sizes(planned - batch, batch)
  }

  // `jobs` is also the capacity of the results channel; jobs are handed out
  // during the first `active` nanoseconds of the window.
  datatype Config = Config(planned: nat, batch: nat, jobs: nat, concurrency: nat, active: nat, window: int) {
    ghost predicate Valid() {
      && planned > 0 && batch > 0 && jobs == |Sizes(planned, batch)| && concurrency > 0
      && window > 0 && active <= window
    }
  }

  // The scheduler's index after n jobs.
  function IndexAfter(n: nat, batch: nat): nat {
    if n == 0 then 0 else batch + IndexAfter(n - 1, batch)
  }

  // When job k is due: ids are spread evenly over the active time.
  function Due(c: Config, k: nat): int {
    if c.planned == 0 then 0 else IndexAfter(k, c.batch) * c.active / c.planned
  }

  // ----- state -----

  datatype Result = Result(job: nat, accepted: bool, ambiguous: bool, started: int, finished: int)

  datatype Worker = Waiting | Sending(job: nat, started: int) | Holding(result: Result) | Exited

  // `skipped` lists the jobs behind the generator's missed count.
  datatype State = State(
    now: int, cancelled: bool,
    next: nat, scheduled: bool, skipped: seq<nat>,
    jobs: seq<nat>, workers: seq<Worker>, results: seq<Result>, closed: bool,
    recorded: seq<Result>, windowElapsed: bool, workersDone: bool, aborted: bool, finished: bool)

  // The scheduler goroutine: the queue takes the next job; the queue is full
  // and the job is missed; out of time, or cancelled while it waits for the
  // next job's time, so the rest is missed; all jobs are done and the queue is
  // closed.
  datatype SchedulerStep = Offer | Skip | StopEarly | EndSchedule

  // A worker goroutine: receive a job; the request returns; send the result;
  // the queue is closed and empty.
  datatype WorkerStep = Take | Reply(accepted: bool, ambiguous: bool) | Deliver | Exit

  // The accounting loop (and the goroutine that closes the results channel).
  datatype LoopStep = CloseResults | Record | SeeClosed | WindowFires | SeeCancel | EndLoop

  datatype Step =
    | Tick(dt: nat)
    | Cancel
    | Scheduler(a: SchedulerStep)
    | Work(w: nat, b: WorkerStep)
    | Loop(l: LoopStep)

  function Init(c: Config): State {
    State(0, false, 0, false, [], [], seq(c.concurrency, _ => Waiting), [], false, [], false, false, false, false)
  }

  predicate SchedulerEnabled(c: Config, s: State, a: SchedulerStep) {
    !s.scheduled &&
    match a
    case Offer => s.next < c.jobs && Due(c, s.next) <= s.now <= c.active && |s.jobs| < 2 * c.concurrency
    case Skip => s.next < c.jobs && Due(c, s.next) <= s.now <= c.active && |s.jobs| >= 2 * c.concurrency
    case StopEarly => s.next < c.jobs && (s.now > c.active || (s.cancelled && s.now <= Due(c, s.next)))
    case EndSchedule => s.next == c.jobs
  }

  // The jobs i, i+1, ..., n-1.
  function JobsFrom(i: nat, n: nat): seq<nat>
    decreases n
  {
    if n <= i then [] else JobsFrom(i, n - 1) + [n - 1]
  }

  function SchedulerNext(c: Config, s: State, a: SchedulerStep): State {
    match a
    case Offer => s.(jobs := s.jobs + [s.next], next := s.next + 1)
    case Skip => s.(skipped := s.skipped + [s.next], next := s.next + 1)
    case StopEarly => s.(skipped := s.skipped + JobsFrom(s.next, c.jobs), next := c.jobs, scheduled := true)
    case EndSchedule => s.(scheduled := true)
  }

  predicate WorkerEnabled(c: Config, s: State, w: nat, b: WorkerStep) {
    w < |s.workers| &&
    match b
    case Take => s.workers[w].Waiting? && |s.jobs| > 0
    case Reply(accepted, ambiguous) => s.workers[w].Sending? && !(accepted && ambiguous)
    case Deliver => s.workers[w].Holding? && |s.results| < c.jobs
    case Exit => s.workers[w].Waiting? && s.scheduled && |s.jobs| == 0
  }

  function WorkerNext(c: Config, s: State, w: nat, b: WorkerStep): State
    requires WorkerEnabled(c, s, w, b)
  {
    match b
    case Take => s.(jobs := s.jobs[1..], workers := s.workers[w := Sending(s.jobs[0], s.now)])
    case Reply(accepted, ambiguous) =>
      var r := Result(s.workers[w].job, accepted, ambiguous, s.workers[w].started, s.now);
      s.(workers := s.workers[w := Holding(r)])
    case Deliver => s.(results := s.results + [s.workers[w].result], workers := s.workers[w := Waiting])
    case Exit => s.(workers := s.workers[w := Exited])
  }

  predicate LoopEnabled(c: Config, s: State, l: LoopStep) {
    match l
    case CloseResults => !s.closed && forall w :: 0 <= w < |s.workers| ==> s.workers[w].Exited?
    case Record => !s.finished && !s.workersDone && |s.results| > 0
    case SeeClosed => !s.finished && !s.workersDone && |s.results| == 0 && s.closed
    case WindowFires => !s.finished && !s.windowElapsed && s.now >= c.window
    case SeeCancel => !s.finished && s.cancelled && !s.aborted && !(s.windowElapsed && s.workersDone)
    case EndLoop => !s.finished && s.windowElapsed && s.workersDone
  }

  function LoopNext(c: Config, s: State, l: LoopStep): State
    requires LoopEnabled(c, s, l)
  {
    match l
    case CloseResults => s.(closed := true)
    case Record => s.(recorded := s.recorded + [s.results[0]], results := s.results[1..])
    case SeeClosed => s.(workersDone := true)
    case WindowFires => s.(windowElapsed := true)
    case SeeCancel => s.(windowElapsed := true, aborted := true)
    case EndLoop => s.(finished := true)
  }

  predicate Enabled(c: Config, s: State, step: Step) {
    match step
    case Tick(_) => true
    case Cancel => !s.cancelled
    case Scheduler(a) => SchedulerEnabled(c, s, a)
    case Work(w, b) => WorkerEnabled(c, s, w, b)
    case Loop(l) => LoopEnabled(c, s, l)
  }

  function Next(c: Config, s: State, step: Step): State
    requires Enabled(c, s, step)
  {
    match step
    case Tick(dt) => s.(now := s.now + dt)
    case Cancel => s.(cancelled := true)
    case Scheduler(a) => SchedulerNext(c, s, a)
    case Work(w, b) => WorkerNext(c, s, w, b)
    case Loop(l) => LoopNext(c, s, l)
  }

  function Run(c: Config, s: State, steps: seq<Step>): Option<State>
  {
    if |steps| == 0 then Some(s)
    else
      var t := Run(c, s, steps[..|steps| - 1]);
      var last := steps[|steps| - 1];
      if t.Some? && Enabled(c, t.value, last) then Some(Next(c, t.value, last)) else None
  }

  // ----- where every job is -----

  // Any quantity f that jobs have is summed over the places a job can be in.
  function TotalResults(f: nat -> int, rs: seq<Result>): int {
    if |rs| == 0 then 0 else TotalResults(f, rs[..|rs| - 1]) + f(rs[|rs| - 1].job)
  }

  function HeldBy(f: nat -> int, w: Worker): int {
    match w
    case Sending(job, _) => f(job)
    case Holding(r) => f(r.job)
    case _ => 0
  }

  function TotalHeld(f: nat -> int, ws: seq<Worker>): int {
    if |ws| == 0 then 0 else TotalHeld(f, ws[..|ws| - 1]) + HeldBy(f, ws[|ws| - 1])
  }

  // Missed, queued, with a worker, waiting to be recorded, or recorded.
  function Everywhere(f: nat -> int, s: State): int {
    Total(f, s.skipped) + Total(f, s.jobs) + TotalHeld(f, s.workers) + TotalResults(f, s.results) + TotalResults(f, s.recorded)
  }

  // The sum over jobs 0..n-1.
  function SumTo(f: nat -> int, n: nat): int {
    if n == 0 then 0 else SumTo(f, n - 1) + f(n - 1)
  }

  // ----- lemmas about the sums -----

  lemma {:induction false} TotalJobsFrom(f: nat -> int, i: nat, n: nat)
    requires i <= n
    ensures Total(f, JobsFrom(i, n)) == SumTo(f, n) - SumTo(f, i)
    decreases n
  {
    if i < n {
      TotalJobsFrom(f, i, n - 1);
      TotalAppend<nat>(f, JobsFrom(i, n - 1), n - 1);
    }
  }

  lemma {:induction false} ResultsHead(f: nat -> int, rs: seq<Result>)
    requires |rs| > 0
    ensures TotalResults(f, rs) == f(rs[0].job) + TotalResults(f, rs[1..])
  {
    if |rs| > 1 {
      ResultsHead(f, rs[..|rs| - 1]);
      assert rs[1..][..|rs| - 2] == rs[..|rs| - 1][1..];
    }
  }

  lemma {:induction false} ResultsOne(f: nat -> int, rs: seq<Result>, r: Result)
    ensures TotalResults(f, rs + [r]) == TotalResults(f, rs) + f(r.job)
  {
    assert (rs + [r])[..|rs|] == rs;
  }

  lemma {:induction false} HeldUpdate(f: nat -> int, ws: seq<Worker>, w: nat, x: Worker)
    requires w < |ws|
    ensures TotalHeld(f, ws[w := x]) == TotalHeld(f, ws) - HeldBy(f, ws[w]) + HeldBy(f, x)
  {
    var init, more := ws[..|ws| - 1], ws[w := x];
    if w == |ws| - 1 {
      assert more[..|ws| - 1] == init;
    } else {
      HeldUpdate(f, init, w, x);
      assert more[..|ws| - 1] == init[w := x];
    }
  }

  lemma {:induction false} NothingHeld(f: nat -> int, ws: seq<Worker>)
    requires forall w :: 0 <= w < |ws| ==> ws[w].Waiting? || ws[w].Exited?
    ensures TotalHeld(f, ws) == 0
  {
    if |ws| > 0 {
      NothingHeld(f, ws[..|ws| - 1]);
    }
  }

  // ----- every step keeps every job in exactly one place -----

  lemma {:induction false} StopMoves(c: Config, s: State, f: nat -> int)
    requires s.next <= c.jobs
    ensures Total(f, s.skipped + JobsFrom(s.next, c.jobs)) == Total(f, s.skipped) + SumTo(f, c.jobs) - SumTo(f, s.next)
  {
    TotalConcat(f, s.skipped, JobsFrom(s.next, c.jobs));
    TotalJobsFrom(f, s.next, c.jobs);
  }

  lemma {:induction false} SchedulerMoves(c: Config, s: State, a: SchedulerStep, f: nat -> int)
    requires s.next <= c.jobs && SchedulerEnabled(c, s, a)
    ensures var t := SchedulerNext(c, s, a); Everywhere(f, t) - SumTo(f, t.next) == Everywhere(f, s) - SumTo(f, s.next)
  {
    if a.Offer? {
      TotalAppend(f, s.jobs, s.next);
    } else if a.Skip? {
      TotalAppend(f, s.skipped, s.next);
    } else if a.StopEarly? {
      StopMoves(c, s, f);
    }
  }

  lemma {:induction false} WorkerMoves(c: Config, s: State, w: nat, b: WorkerStep, f: nat -> int)
    requires WorkerEnabled(c, s, w, b)
    ensures Everywhere(f, WorkerNext(c, s, w, b)) == Everywhere(f, s) && WorkerNext(c, s, w, b).next == s.next
  {
    var t := WorkerNext(c, s, w, b);
    HeldUpdate(f, s.workers, w, t.workers[w]);
    if b.Take? {
      TotalHead(f, s.jobs);
    } else if b.Deliver? {
      ResultsOne(f, s.results, s.workers[w].result);
    }
  }

  lemma {:induction false} WorkerConserves(c: Config, s: State, w: nat, b: WorkerStep, f: nat -> int)
    requires Everywhere(f, s) == SumTo(f, s.next) && Enabled(c, s, Work(w, b))
    ensures var t := Next(c, s, Work(w, b)); Everywhere(f, t) == SumTo(f, t.next)
  {
    WorkerMoves(c, s, w, b, f);
  }

  lemma {:induction false} LoopConserves(c: Config, s: State, l: LoopStep, f: nat -> int)
    requires Everywhere(f, s) == SumTo(f, s.next) && Enabled(c, s, Loop(l))
    ensures var t := Next(c, s, Loop(l)); Everywhere(f, t) == SumTo(f, t.next)
  {
    if l.Record? {
      ResultsHead(f, s.results);
      ResultsOne(f, s.recorded, s.results[0]);
    }
  }

  lemma {:induction false} StepConserves(c: Config, s: State, step: Step, f: nat -> int)
    requires s.next <= c.jobs && Everywhere(f, s) == SumTo(f, s.next) && Enabled(c, s, step)
    ensures Everywhere(f, Next(c, s, step)) == SumTo(f, Next(c, s, step).next)
  {
    match step
    case Tick(_) =>
    case Cancel =>
    case Scheduler(a) => SchedulerMoves(c, s, a, f);
    case Work(w, b) => WorkerConserves(c, s, w, b, f);
    case Loop(l) => LoopConserves(c, s, l, f);
  }

  // ----- control and times -----

  ghost predicate AllExited(ws: seq<Worker>) {
    forall w :: 0 <= w < |ws| ==> ws[w].Exited?
  }

  ghost predicate NoneExited(ws: seq<Worker>) {
    forall w :: 0 <= w < |ws| ==> !ws[w].Exited?
  }

  ghost predicate Control(c: Config, s: State) {
    && s.next <= c.jobs
    && (s.scheduled ==> s.next == c.jobs)
    && ((s.scheduled && |s.jobs| == 0) || NoneExited(s.workers))
    && (s.closed ==> AllExited(s.workers))
    && (s.workersDone ==> s.closed && |s.results| == 0)
    && (s.finished ==> s.workersDone && s.windowElapsed)
    && |s.workers| == c.concurrency > 0
  }

  ghost predicate ResultOk(r: Result, now: int) {
    0 <= r.started <= r.finished <= now && !(r.accepted && r.ambiguous)
  }

  ghost predicate ResultsOk(rs: seq<Result>, now: int) {
    forall i :: 0 <= i < |rs| ==> ResultOk(rs[i], now)
  }

  ghost predicate WorkerOk(w: Worker, now: int) {
    match w
    case Sending(_, started) => 0 <= started <= now
    case Holding(r) => ResultOk(r, now)
    case _ => true
  }

  ghost predicate WorkersOk(ws: seq<Worker>, now: int) {
    forall w :: 0 <= w < |ws| ==> WorkerOk(ws[w], now)
  }

  ghost predicate Times(c: Config, s: State) {
    && 0 <= s.now
    && (s.windowElapsed && !s.aborted ==> s.now >= c.window)
    && WorkersOk(s.workers, s.now) && ResultsOk(s.results, s.now) && ResultsOk(s.recorded, s.now)
  }

  ghost predicate Inv(c: Config, s: State) {
    c.Valid() && Control(c, s) && Times(c, s)
  }

  lemma {:induction false} WorkerKeepsTimes(c: Config, s: State, w: nat, b: WorkerStep)
    requires Times(c, s) && WorkerEnabled(c, s, w, b)
    ensures Times(c, WorkerNext(c, s, w, b))
  {
    var t := WorkerNext(c, s, w, b);
    assert WorkerOk(s.workers[w], s.now);
    assert WorkerOk(t.workers[w], s.now);
    forall v | 0 <= v < |t.workers| ensures WorkerOk(t.workers[v], t.now) {
      assert v != w ==> t.workers[v] == s.workers[v];
    }
    forall i | 0 <= i < |t.results| ensures ResultOk(t.results[i], t.now) {
      assert i < |s.results| ==> t.results[i] == s.results[i];
    }
  }

  lemma {:induction false} WorkerKeepsControl(c: Config, s: State, w: nat, b: WorkerStep)
    requires Control(c, s) && WorkerEnabled(c, s, w, b)
    ensures Control(c, WorkerNext(c, s, w, b))
  {
  }

  lemma {:induction false} WorkerKeepsInv(c: Config, s: State, w: nat, b: WorkerStep)
    requires Inv(c, s) && Enabled(c, s, Work(w, b))
    ensures Inv(c, Next(c, s, Work(w, b)))
  {
    WorkerKeepsTimes(c, s, w, b);
    WorkerKeepsControl(c, s, w, b);
  }

  lemma {:induction false} SchedulerKeepsInv(c: Config, s: State, a: SchedulerStep)
    requires Inv(c, s) && Enabled(c, s, Scheduler(a))
    ensures Inv(c, Next(c, s, Scheduler(a)))
  {
  }

  lemma {:induction false} LoopKeepsInv(c: Config, s: State, l: LoopStep)
    requires Inv(c, s) && Enabled(c, s, Loop(l))
    ensures Inv(c, Next(c, s, Loop(l)))
  {
  }

  lemma {:induction false} TickKeepsInv(c: Config, s: State, dt: nat)
    requires Inv(c, s)
    ensures Inv(c, Next(c, s, Tick(dt)))
  {
    forall w | 0 <= w < |s.workers| ensures WorkerOk(s.workers[w], s.now + dt) {
      assert WorkerOk(s.workers[w], s.now);
    }
    forall i | 0 <= i < |s.results| ensures ResultOk(s.results[i], s.now + dt) {
      assert ResultOk(s.results[i], s.now);
    }
    forall i | 0 <= i < |s.recorded| ensures ResultOk(s.recorded[i], s.now + dt) {
      assert ResultOk(s.recorded[i], s.now);
    }
  }

  lemma {:induction false} StepKeepsInv(c: Config, s: State, step: Step)
    requires Inv(c, s) && Enabled(c, s, step)
    ensures Inv(c, Next(c, s, step))
  {
    match step
    case Tick(dt) => TickKeepsInv(c, s, dt);
    case Cancel =>
    case Scheduler(a) => SchedulerKeepsInv(c, s, a);
    case Work(w, b) => WorkerKeepsInv(c, s, w, b);
    case Loop(l) => LoopKeepsInv(c, s, l);
  }

  lemma {:induction false} RunInv(c: Config, steps: seq<Step>)
    requires c.Valid() && Run(c, Init(c), steps).Some?
    ensures Inv(c, Run(c, Init(c), steps).value)
    decreases |steps|
  {
    if |steps| > 0 {
      var init, step := steps[..|steps| - 1], steps[|steps| - 1];
      RunInv(c, init);
      StepKeepsInv(c, Run(c, Init(c), init).value, step);
    }
  }

  lemma {:induction false} RunConserves(c: Config, steps: seq<Step>, f: nat -> int)
    requires c.Valid() && Run(c, Init(c), steps).Some?
    ensures var s := Run(c, Init(c), steps).value; Everywhere(f, s) == SumTo(f, s.next)
    decreases |steps|
  {
    if |steps| == 0 {
      NothingHeld(f, Init(c).workers);
    } else {
      var init, step := steps[..|steps| - 1], steps[|steps| - 1];
      RunConserves(c, init, f);
      RunInv(c, init);
      StepConserves(c, Run(c, Init(c), init).value, step, f);
    }
  }

  // ----- main results -----

  function Is(k: nat): nat -> int {
    j => if j == k then 1 else 0
  }

  function SizeIn(c: Config): nat -> int
    requires c.batch > 0
  {
    var sizes := Sizes(c.planned, c.batch);
    (j: nat) => if j < |sizes| then sizes[j] else 0
  }

  lemma {:induction false} SumToIs(k: nat, n: nat)
    ensures SumTo(Is(k), n) == if k < n then 1 else 0
  {
    if n > 0 {
      SumToIs(k, n - 1);
    }
  }

  // In every reachable state each job that was scheduled is in exactly one
  // place, and no other job is anywhere.
  lemma {:induction false} ExactlyOnePlace(c: Config, steps: seq<Step>, k: nat)
    requires c.Valid() && Run(c, Init(c), steps).Some?
    ensures var s := Run(c, Init(c), steps).value; Everywhere(Is(k), s) == if k < s.next then 1 else 0
  {
    RunConserves(c, steps, Is(k));
    SumToIs(k, Run(c, Init(c), steps).value.next);
  }

  lemma {:induction false} ResultCounts(rs: seq<Result>)
    ensures TotalResults(One<nat>(), rs) == |rs|
  {
    if |rs| > 0 {
      ResultCounts(rs[..|rs| - 1]);
    }
  }

  lemma {:induction false} HeldCounts(ws: seq<Worker>)
    ensures 0 <= TotalHeld(One<nat>(), ws)
    ensures (exists w :: 0 <= w < |ws| && (ws[w].Sending? || ws[w].Holding?)) ==> TotalHeld(One<nat>(), ws) > 0
  {
    if |ws| > 0 {
      HeldCounts(ws[..|ws| - 1]);
    }
  }

  lemma {:induction false} SumToOne(n: nat)
    ensures SumTo(One<nat>(), n) == n
  {
    if n > 0 {
      SumToOne(n - 1);
    }
  }

  // A worker that holds a result can always send it: the channel has room.
  lemma {:induction false} ResultsNeverBlock(c: Config, steps: seq<Step>, w: nat)
    requires c.Valid() && Run(c, Init(c), steps).Some?
    requires var s := Run(c, Init(c), steps).value; w < |s.workers| && s.workers[w].Holding?
    ensures Enabled(c, Run(c, Init(c), steps).value, Work(w, Deliver))
  {
    var s := Run(c, Init(c), steps).value;
    RunInv(c, steps);
    RunConserves(c, steps, One<nat>());
    SumToOne(s.next);
    TotalOfOnes<nat>(s.skipped);
    TotalOfOnes<nat>(s.jobs);
    HeldCounts(s.workers);
    ResultCounts(s.results);
    ResultCounts(s.recorded);
  }

  // Job sizes add up to the plan.
  lemma {:induction false} SizesAddUp(planned: nat, batch: nat)
    requires batch > 0
    ensures Sum(Sizes(planned, batch)) == planned
    decreases planned
  {
    if planned > batch {
      SizesAddUp(planned - batch, batch);
      var rest := Sizes(planned - batch, batch);
      assert ([batch] + rest)[1..] == rest;
    } else if planned > 0 {
      assert [planned][1..] == [];
    }
  }

  function Sum(ns: seq<nat>): nat {
    if |ns| == 0 then 0 else ns[0] + Sum(ns[1..])
  }

  lemma {:induction false} SumPrefix(ns: seq<nat>, n: nat)
    requires n < |ns|
    ensures Sum(ns[..n + 1]) == Sum(ns[..n]) + ns[n]
  {
    if n == 0 {
      assert ns[..1][1..] == [];
    } else {
      SumPrefix(ns[1..], n - 1);
      assert ns[..n + 1][1..] == ns[1..][..n] && ns[..n][1..] == ns[1..][..n - 1];
    }
  }

  lemma {:induction false} SumToSizes(c: Config, n: nat)
    requires c.Valid() && n <= c.jobs
    ensures SumTo(SizeIn(c), n) == Sum(Sizes(c.planned, c.batch)[..n])
  {
    if n > 0 {
      SumToSizes(c, n - 1);
      SumPrefix(Sizes(c.planned, c.batch), n - 1);
    }
  }

  // The number of ids in the missed and in the recorded jobs.
  function Missed(c: Config, s: State): int
    requires c.batch > 0
  {
    Total(SizeIn(c), s.skipped)
  }

  function Attempted(c: Config, s: State): int
    requires c.batch > 0
  {
    TotalResults(SizeIn(c), s.recorded)
  }

  lemma {:induction false} WorkIsOver(c: Config, s: State, f: nat -> int)
    requires Inv(c, s) && s.workersDone
    ensures Everywhere(f, s) == Total(f, s.skipped) + TotalResults(f, s.recorded) && s.next == c.jobs
  {
    assert s.workers[0].Exited?;
    NothingHeld(f, s.workers);
  }

  // When the accounting loop ends, in every interleaving and whether or not
  // the run was cancelled: every planned id was either missed or attempted,
  // and every job was missed or recorded exactly once.
  lemma {:induction false} EverythingIsAccounted(c: Config, steps: seq<Step>, k: nat)
    requires c.Valid() && Run(c, Init(c), steps).Some? && Run(c, Init(c), steps).value.finished
    ensures var s := Run(c, Init(c), steps).value;
            && c.planned == Missed(c, s) + Attempted(c, s)
            && Total(Is(k), s.skipped) + TotalResults(Is(k), s.recorded) == (if k < c.jobs then 1 else 0)
  {
    var s := Run(c, Init(c), steps).value;
    RunInv(c, steps);
    RunConserves(c, steps, SizeIn(c));
    WorkIsOver(c, s, SizeIn(c));
    SumToSizes(c, c.jobs);
    SizesAddUp(c.planned, c.batch);
    assert Sizes(c.planned, c.batch)[..c.jobs] == Sizes(c.planned, c.batch);
    ExactlyOnePlace(c, steps, k);
    WorkIsOver(c, s, Is(k));
  }

  lemma {:induction false} FullBatchesFirst(planned: nat, batch: nat, n: nat)
    requires batch > 0 && n < |Sizes(planned, batch)|
    ensures Sum(Sizes(planned, batch)[..n]) == IndexAfter(n, batch)
    decreases n
  {
    if n > 0 {
      FullBatchesFirst(planned - batch, batch, n - 1);
      var prefix := Sizes(planned, batch)[..n];
      assert prefix[0] == batch && prefix[1..] == Sizes(planned - batch, batch)[..n - 1];
    }
  }

  // The number of jobs is the planned count divided by the batch size, rounded
  // up: the capacity that the results channel is made with.
  lemma {:induction false} JobsIsCeiling(planned: nat, batch: nat)
    requires planned > 0 && batch > 0
    ensures var jobs := |Sizes(planned, batch)|;
            jobs > 0 && IndexAfter(jobs - 1, batch) < planned <= IndexAfter(jobs, batch)
    decreases planned
  {
    if planned > batch {
      JobsIsCeiling(planned - batch, batch);
    }
  }

  // Stopping early misses exactly the ids from the scheduler's index on.
  lemma {:induction false} StoppingMissesTheRest(c: Config, s: State)
    requires c.Valid() && Enabled(c, s, Scheduler(StopEarly))
    ensures Missed(c, Next(c, s, Scheduler(StopEarly))) == Missed(c, s) + c.planned - IndexAfter(s.next, c.batch)
  {
    StopMoves(c, s, SizeIn(c));
    SumToSizes(c, c.jobs);
    SumToSizes(c, s.next);
    SizesAddUp(c.planned, c.batch);
    assert Sizes(c.planned, c.batch)[..c.jobs] == Sizes(c.planned, c.batch);
    FullBatchesFirst(c.planned, c.batch, s.next);
  }

  // ----- what is recorded are the replies -----

  // The job that worker w took last and the time it took it, read off the
  // queue and the clock.
  ghost function Taken(c: Config, steps: seq<Step>, w: nat): Option<(nat, int)>
    requires Run(c, Init(c), steps).Some?
  {
    if |steps| == 0 then None
    else
      var init := steps[..|steps| - 1];
      var s := Run(c, Init(c), init).value;
      if steps[|steps| - 1] == Work(w, Take) then Some((s.jobs[0], s.now)) else Taken(c, init, w)
  }

  // The results that the replies of a run call for, in the order of the
  // replies.
  ghost function Replies(c: Config, steps: seq<Step>): seq<Result>
    requires Run(c, Init(c), steps).Some?
  {
    if |steps| == 0 then []
    else
      var init := steps[..|steps| - 1];
      match steps[|steps| - 1]
      case Work(w, Reply(accepted, ambiguous)) =>
        (match Taken(c, init, w)
         case Some((job, started)) =>
           Replies(c, init) + [Result(job, accepted, ambiguous, started, Run(c, Init(c), init).value.now)]
         case None => Replies(c, init))
      case _ => Replies(c, init)
  }

  lemma {:induction false} SendingWasTaken(c: Config, steps: seq<Step>, w: nat)
    requires Run(c, Init(c), steps).Some? && w < |Run(c, Init(c), steps).value.workers|
    ensures var x := Run(c, Init(c), steps).value.workers[w];
            x.Sending? ==> Taken(c, steps, w) == Some((x.job, x.started))
    decreases |steps|
  {
    if |steps| > 0 {
      var init, step := steps[..|steps| - 1], steps[|steps| - 1];
      var s := Run(c, Init(c), init).value;
      if !step.Work? {
        OthersLeaveWorkers(c, s, step);
        SendingWasTaken(c, init, w);
      } else if step.w == w {
        OwnStep(c, s, w, step.b);
      } else {
        SameNumber(c, s, step.w, step.b);
        OthersStay(c, s, step.w, step.b, w);
        SendingWasTaken(c, init, w);
      }
    }
  }

  lemma {:induction false} SameNumber(c: Config, s: State, w: nat, b: WorkerStep)
    requires WorkerEnabled(c, s, w, b)
    ensures |WorkerNext(c, s, w, b).workers| == |s.workers|
  {
    match b
    case Take =>
    case Reply(_, _) =>
    case Deliver =>
    case Exit =>
  }

  // Only its own steps change a worker.
  lemma {:induction false} OthersStay(c: Config, s: State, v: nat, b: WorkerStep, w: nat)
    requires WorkerEnabled(c, s, v, b) && w < |s.workers| && v != w
    ensures w < |WorkerNext(c, s, v, b).workers| && WorkerNext(c, s, v, b).workers[w] == s.workers[w]
  {
    match b
    case Take =>
    case Reply(_, _) =>
    case Deliver =>
    case Exit =>
  }

  // Only taking a job makes a worker send it.
  lemma {:induction false} OwnStep(c: Config, s: State, w: nat, b: WorkerStep)
    requires WorkerEnabled(c, s, w, b)
    ensures w < |WorkerNext(c, s, w, b).workers|
    ensures b.Take? ==> |s.jobs| > 0 && WorkerNext(c, s, w, b).workers[w] == Sending(s.jobs[0], s.now)
    ensures !b.Take? ==> !WorkerNext(c, s, w, b).workers[w].Sending?
  {
    match b
    case Take =>
    case Reply(_, _) =>
    case Deliver =>
    case Exit =>
  }

  lemma {:induction false} SchedulerLeavesWorkers(c: Config, s: State, a: SchedulerStep)
    ensures SchedulerNext(c, s, a).workers == s.workers && SchedulerNext(c, s, a).results == s.results
    ensures SchedulerNext(c, s, a).recorded == s.recorded
  {
    match a
    case Offer =>
    case Skip =>
    case StopEarly =>
    case EndSchedule =>
  }

  lemma {:induction false} LoopLeavesWorkers(c: Config, s: State, l: LoopStep)
    requires LoopEnabled(c, s, l)
    ensures LoopNext(c, s, l).workers == s.workers && LoopNext(c, s, l).jobs == s.jobs && LoopNext(c, s, l).next == s.next
  {
    match l
    case CloseResults =>
    case Record =>
    case SeeClosed =>
    case WindowFires =>
    case SeeCancel =>
    case EndLoop =>
  }

  lemma {:induction false} OthersLeaveWorkers(c: Config, s: State, step: Step)
    requires Enabled(c, s, step) && !step.Work?
    ensures Next(c, s, step).workers == s.workers
  {
    match step
    case Tick(_) =>
    case Cancel =>
    case Scheduler(a) => SchedulerLeavesWorkers(c, s, a);
    case Loop(l) => LoopLeavesWorkers(c, s, l);
  }

  function HeldResult(g: Result -> int): Worker -> int {
    (w: Worker) => if w.Holding? then g(w.result) else 0
  }

  // A quantity of results, summed over the workers, the channel and the
  // recorded ones.
  function OfResults(g: Result -> int, s: State): int {
    Total(HeldResult(g), s.workers) + Total(g, s.results) + Total(g, s.recorded)
  }

  // A reply adds its result; every other step only moves results.
  lemma {:induction false} WorkerMovesResults(c: Config, s: State, w: nat, b: WorkerStep, g: Result -> int)
    requires WorkerEnabled(c, s, w, b)
    ensures OfResults(g, WorkerNext(c, s, w, b)) == OfResults(g, s) +
              if b.Reply? then g(Result(s.workers[w].job, b.accepted, b.ambiguous, s.workers[w].started, s.now)) else 0
  {
    var t := WorkerNext(c, s, w, b);
    TotalUpdate(HeldResult(g), s.workers, w, t.workers[w]);
    if b.Deliver? {
      TotalAppend(g, s.results, s.workers[w].result);
    }
  }

  lemma {:induction false} LoopMovesResults(c: Config, s: State, l: LoopStep, g: Result -> int)
    requires LoopEnabled(c, s, l)
    ensures OfResults(g, LoopNext(c, s, l)) == OfResults(g, s)
  {
    if l.Record? {
      TotalHead(g, s.results);
      TotalAppend(g, s.recorded, s.results[0]);
    }
  }

  lemma {:induction false} OtherStepsMoveResults(c: Config, s: State, step: Step, g: Result -> int)
    requires Enabled(c, s, step) && !step.Work?
    ensures OfResults(g, Next(c, s, step)) == OfResults(g, s)
  {
    match step
    case Tick(_) =>
    case Cancel =>
    case Scheduler(a) => SchedulerLeavesWorkers(c, s, a);
    case Loop(l) => LoopMovesResults(c, s, l, g);
  }

  lemma {:induction false} NoResultsAtFirst(g: Result -> int, ws: seq<Worker>)
    requires forall w :: 0 <= w < |ws| ==> !ws[w].Holding?
    ensures Total(HeldResult(g), ws) == 0
  {
    if |ws| > 0 {
      NoResultsAtFirst(g, ws[..|ws| - 1]);
    }
  }

  lemma {:induction false} ResultsConserved(c: Config, steps: seq<Step>, g: Result -> int)
    requires Run(c, Init(c), steps).Some?
    ensures OfResults(g, Run(c, Init(c), steps).value) == Total(g, Replies(c, steps))
    decreases |steps|
  {
    if |steps| == 0 {
      NoResultsAtFirst(g, Init(c).workers);
    } else {
      var init, step := steps[..|steps| - 1], steps[|steps| - 1];
      var s := Run(c, Init(c), init).value;
      ResultsConserved(c, init, g);
      if step.Work? {
        WorkerMovesResults(c, s, step.w, step.b, g);
        if step.b.Reply? {
          SendingWasTaken(c, init, step.w);
          var x := s.workers[step.w];
          TotalAppend(g, Replies(c, init), Result(x.job, step.b.accepted, step.b.ambiguous, x.started, s.now));
        }
      } else {
        OtherStepsMoveResults(c, s, step, g);
      }
    }
  }

  // When the loop has ended, what it recorded are exactly the replies: each
  // of them once, with its own outcome and its own times.
  lemma {:induction false} RepliesAreRecorded(c: Config, steps: seq<Step>)
    requires c.Valid() && Run(c, Init(c), steps).Some? && Run(c, Init(c), steps).value.finished
    ensures multiset(Run(c, Init(c), steps).value.recorded) == multiset(Replies(c, steps))
  {
    var s := Run(c, Init(c), steps).value;
    RunInv(c, steps);
    forall r: Result ensures multiset(s.recorded)[r] == multiset(Replies(c, steps))[r] {
      var g := Occurs(r);
      ResultsConserved(c, steps, g);
      NoResultsAtFirst(g, s.workers);
      TotalIsCount(s.recorded, r);
      TotalIsCount(Replies(c, steps), r);
    }
  }

  // Step n is the reply that r stands for.
  ghost predicate RepliedAt(c: Config, steps: seq<Step>, n: nat, r: Result) {
    && n < |steps| && Run(c, Init(c), steps[..n]).Some?
    && steps[n].Work? && steps[n].b == Reply(r.accepted, r.ambiguous)
    && Taken(c, steps[..n], steps[n].w) == Some((r.job, r.started)) && Run(c, Init(c), steps[..n]).value.now == r.finished
  }

  lemma {:induction false} LastReply(c: Config, steps: seq<Step>, r: Result)
    requires |steps| > 0 && Run(c, Init(c), steps).Some?
    ensures r in Replies(c, steps) <==> r in Replies(c, steps[..|steps| - 1]) || RepliedAt(c, steps, |steps| - 1, r)
  {
  }

  lemma {:induction false} EarlierReply(c: Config, steps: seq<Step>, n: nat, r: Result)
    requires n < |steps| - 1
    ensures RepliedAt(c, steps[..|steps| - 1], n, r) <==> RepliedAt(c, steps, n, r)
  {
    assert steps[..|steps| - 1][..n] == steps[..n];
  }

  lemma {:induction false} ReplyHasStep(c: Config, steps: seq<Step>, r: Result) returns (n: nat)
    requires Run(c, Init(c), steps).Some? && r in Replies(c, steps)
    ensures RepliedAt(c, steps, n, r)
    decreases |steps|
  {
    LastReply(c, steps, r);
    if RepliedAt(c, steps, |steps| - 1, r) {
      n := |steps| - 1;
    } else {
      n := ReplyHasStep(c, steps[..|steps| - 1], r);
      EarlierReply(c, steps, n, r);
    }
  }

  lemma {:induction false} StepHasReply(c: Config, steps: seq<Step>, n: nat, r: Result)
    requires Run(c, Init(c), steps).Some? && RepliedAt(c, steps, n, r)
    ensures r in Replies(c, steps)
    decreases |steps|
  {
    LastReply(c, steps, r);
    if n < |steps| - 1 {
      EarlierReply(c, steps, n, r);
      StepHasReply(c, steps[..|steps| - 1], n, r);
    }
  }

  // Every result that calls for recording has its reply, and the other way
  // around.
  lemma {:induction false} RepliesExactly(c: Config, steps: seq<Step>, r: Result)
    requires Run(c, Init(c), steps).Some?
    ensures r in Replies(c, steps) <==> exists n: nat :: RepliedAt(c, steps, n, r)
  {
    if r in Replies(c, steps) {
      var n := ReplyHasStep(c, steps, r);
    }
    forall n: nat | RepliedAt(c, steps, n, r) ensures r in Replies(c, steps) {
      StepHasReply(c, steps, n, r);
    }
  }

  // The queue holds jobs in the order of the schedule, never more than two
  // for each worker.
  ghost predicate QueueOk(c: Config, s: State) {
    && |s.jobs| <= 2 * c.concurrency
    && (forall i :: 0 <= i < |s.jobs| ==> s.jobs[i] < s.next)
    && (forall i, j :: 0 <= i < j < |s.jobs| ==> s.jobs[i] < s.jobs[j])
  }

  lemma {:induction false} SchedulerKeepsQueue(c: Config, s: State, a: SchedulerStep)
    requires QueueOk(c, s) && s.next <= c.jobs && SchedulerEnabled(c, s, a)
    ensures QueueOk(c, SchedulerNext(c, s, a))
  {
  }

  lemma {:induction false} WorkerKeepsQueue(c: Config, s: State, w: nat, b: WorkerStep)
    requires QueueOk(c, s) && WorkerEnabled(c, s, w, b)
    ensures QueueOk(c, WorkerNext(c, s, w, b))
  {
    match b
    case Take =>
      var rest := s.jobs[1..];
      assert forall i :: 0 <= i < |rest| ==> rest[i] == s.jobs[i + 1];
    case Reply(_, _) =>
    case Deliver =>
    case Exit =>
  }

  lemma {:induction false} StepKeepsQueue(c: Config, s: State, step: Step)
    requires QueueOk(c, s) && s.next <= c.jobs && Enabled(c, s, step)
    ensures QueueOk(c, Next(c, s, step))
  {
    match step
    case Tick(_) =>
    case Cancel =>
    case Scheduler(a) => SchedulerKeepsQueue(c, s, a);
    case Work(w, b) => WorkerKeepsQueue(c, s, w, b);
    case Loop(l) => LoopLeavesWorkers(c, s, l);
  }

  lemma {:induction false} QueueIsOrdered(c: Config, steps: seq<Step>)
    requires c.Valid() && Run(c, Init(c), steps).Some?
    ensures QueueOk(c, Run(c, Init(c), steps).value)
    decreases |steps|
  {
    if |steps| > 0 {
      var init := steps[..|steps| - 1];
      QueueIsOrdered(c, init);
      RunInv(c, init);
      StepKeepsQueue(c, Run(c, Init(c), init).value, steps[|steps| - 1]);
    }
  }

  // ----- the schedule -----

  lemma {:induction false} IndexWithin(planned: nat, batch: nat, k: nat)
    requires batch > 0 && k < |Sizes(planned, batch)|
    ensures IndexAfter(k, batch) < planned
    decreases k
  {
    if k > 0 {
      IndexWithin(planned - batch, batch, k - 1);
    }
  }

  lemma {:induction false} DueWhileActive(c: Config, k: nat)
    requires c.Valid() && k < c.jobs
    ensures 0 <= Due(c, k) <= c.active
  {
    IndexWithin(c.planned, c.batch, k);
    ShareOf(IndexAfter(k, c.batch), c.planned, c.active);
  }

  lemma {:induction false} ShareOf(part: nat, whole: nat, amount: nat)
    requires part <= whole && whole > 0
    ensures 0 <= part * amount / whole <= amount
  {
    assert part * amount <= whole * amount;
    assert whole * amount / whole == amount;
  }

  // Step n is the one at which job k was missed: its time had come and the
  // queue was full; or the active time was over; or the scheduler was
  // cancelled while it waited for this job's or an earlier job's time.
  ghost predicate MissedAt(c: Config, steps: seq<Step>, n: nat, k: nat) {
    && n < |steps| && Run(c, Init(c), steps[..n]).Some? && k < c.jobs
    && var s := Run(c, Init(c), steps[..n]).value;
       || (steps[n] == Scheduler(Skip) && k == s.next && |s.jobs| == 2 * c.concurrency && Due(c, k) <= s.now <= c.active)
       || (steps[n] == Scheduler(StopEarly) && s.next <= k && (s.now > c.active || (Cancel in steps[..n] && s.now <= Due(c, s.next))))
  }

  lemma {:induction false} JobsFromHolds(i: nat, n: nat, k: nat)
    ensures k in JobsFrom(i, n) <==> i <= k < n
    decreases n
  {
    if i < n {
      JobsFromHolds(i, n - 1, k);
    }
  }

  // The jobs that a step misses.
  ghost function MissedBy(c: Config, s: State, step: Step): seq<nat> {
    if step == Scheduler(Skip) then [s.next] else if step == Scheduler(StopEarly) then JobsFrom(s.next, c.jobs) else []
  }

  // What a step of the scheduler, a worker or the loop does to the flags and
  // the missed jobs.
  lemma {:induction false} SchedulerFlags(c: Config, s: State, a: SchedulerStep)
    ensures var t := SchedulerNext(c, s, a);
            && t.cancelled == s.cancelled && t.aborted == s.aborted && t.now == s.now
            && t.skipped == s.skipped + MissedBy(c, s, Scheduler(a))
  {
    match a
    case Offer =>
    case Skip =>
    case StopEarly =>
    case EndSchedule =>
  }

  lemma {:induction false} WorkerFlags(c: Config, s: State, w: nat, b: WorkerStep)
    requires WorkerEnabled(c, s, w, b)
    ensures var t := WorkerNext(c, s, w, b);
            t.cancelled == s.cancelled && t.aborted == s.aborted && t.now == s.now && t.skipped == s.skipped
  {
    match b
    case Take =>
    case Reply(_, _) =>
    case Deliver =>
    case Exit =>
  }

  lemma {:induction false} LoopFlags(c: Config, s: State, l: LoopStep)
    requires LoopEnabled(c, s, l)
    ensures var t := LoopNext(c, s, l);
            && t.cancelled == s.cancelled && (t.aborted ==> s.aborted || s.cancelled)
            && t.now == s.now && t.skipped == s.skipped
  {
    match l
    case CloseResults =>
    case Record =>
    case SeeClosed =>
    case WindowFires =>
    case SeeCancel =>
    case EndLoop =>
  }

  lemma {:induction false} StepFlags(c: Config, s: State, step: Step)
    requires Enabled(c, s, step)
    ensures var t := Next(c, s, step);
            && (t.cancelled <==> s.cancelled || step == Cancel) && (t.aborted ==> s.aborted || s.cancelled)
            && t.now == s.now + (if step.Tick? then step.dt else 0) && t.skipped == s.skipped + MissedBy(c, s, step)
  {
    match step
    case Tick(_) =>
    case Cancel =>
    case Scheduler(a) => SchedulerFlags(c, s, a);
    case Work(w, b) => WorkerFlags(c, s, w, b);
    case Loop(l) => LoopFlags(c, s, l);
  }

  // The context is cancelled when it was cancelled, and the run is aborted
  // only then.
  lemma {:induction false} CancelledExactly(c: Config, steps: seq<Step>)
    requires Run(c, Init(c), steps).Some?
    ensures var s := Run(c, Init(c), steps).value; (s.cancelled <==> Cancel in steps) && (s.aborted ==> s.cancelled)
    decreases |steps|
  {
    if |steps| > 0 {
      var init, last := steps[..|steps| - 1], steps[|steps| - 1];
      CancelledExactly(c, init);
      StepFlags(c, Run(c, Init(c), init).value, last);
      assert steps == init + [last];
    }
  }

  // The time after the given steps.
  function Clock(steps: seq<Step>): int {
    if |steps| == 0 then 0
    else
      var last := steps[|steps| - 1];
      Clock(steps[..|steps| - 1]) + if last.Tick? then last.dt else 0
  }

  lemma {:induction false} ClockExactly(c: Config, steps: seq<Step>)
    requires Run(c, Init(c), steps).Some?
    ensures Run(c, Init(c), steps).value.now == Clock(steps)
    decreases |steps|
  {
    if |steps| > 0 {
      var init := steps[..|steps| - 1];
      ClockExactly(c, init);
      StepFlags(c, Run(c, Init(c), init).value, steps[|steps| - 1]);
    }
  }

  lemma {:induction false} LastMissed(c: Config, steps: seq<Step>, k: nat)
    requires c.Valid() && |steps| > 0 && Run(c, Init(c), steps).Some?
    ensures k in Run(c, Init(c), steps).value.skipped <==>
              k in Run(c, Init(c), steps[..|steps| - 1]).value.skipped || MissedAt(c, steps, |steps| - 1, k)
  {
    var init, last := steps[..|steps| - 1], steps[|steps| - 1];
    var s := Run(c, Init(c), init).value;
    QueueIsOrdered(c, init);
    CancelledExactly(c, init);
    JobsFromHolds(s.next, c.jobs, k);
    StepFlags(c, s, last);
  }

  lemma {:induction false} EarlierMissed(c: Config, steps: seq<Step>, n: nat, k: nat)
    requires n < |steps| - 1
    ensures MissedAt(c, steps[..|steps| - 1], n, k) <==> MissedAt(c, steps, n, k)
  {
    assert steps[..|steps| - 1][..n] == steps[..n];
  }

  // The generator's missed jobs are exactly those that met a full queue, the
  // end of the active time or the cancellation.
  lemma {:induction false} MissedExactly(c: Config, steps: seq<Step>, k: nat)
    requires c.Valid() && Run(c, Init(c), steps).Some?
    ensures k in Run(c, Init(c), steps).value.skipped <==> exists n: nat :: MissedAt(c, steps, n, k)
    decreases |steps|
  {
    if |steps| > 0 {
      var init := steps[..|steps| - 1];
      MissedExactly(c, init, k);
      LastMissed(c, steps, k);
      if n: nat :| MissedAt(c, init, n, k) {
        EarlierMissed(c, steps, n, k);
      }
      if n: nat :| MissedAt(c, steps, n, k) && n < |steps| - 1 {
        EarlierMissed(c, steps, n, k);
      }
    }
  }

  // No job is in the queue, with a worker or on record ahead of its time.
  ghost predicate OnTime(c: Config, job: nat, t: int) {
    Due(c, job) <= t
  }

  ghost predicate JobsOnTime(c: Config, jobs: seq<nat>, now: int) {
    forall i :: 0 <= i < |jobs| ==> OnTime(c, jobs[i], now)
  }

  ghost predicate WorkerOnTime(c: Config, w: Worker) {
    match w
    case Sending(job, started) => OnTime(c, job, started)
    case Holding(r) => OnTime(c, r.job, r.started)
    case _ => true
  }

  ghost predicate ResultsOnTime(c: Config, rs: seq<Result>) {
    forall i :: 0 <= i < |rs| ==> OnTime(c, rs[i].job, rs[i].started)
  }

  ghost predicate Paced(c: Config, s: State) {
    && JobsOnTime(c, s.jobs, s.now) && (forall w :: 0 <= w < |s.workers| ==> WorkerOnTime(c, s.workers[w]))
    && ResultsOnTime(c, s.results) && ResultsOnTime(c, s.recorded)
  }

  lemma {:induction false} SchedulerKeepsPace(c: Config, s: State, a: SchedulerStep)
    requires Paced(c, s) && SchedulerEnabled(c, s, a)
    ensures Paced(c, SchedulerNext(c, s, a))
  {
    match a
    case Offer => assert OnTime(c, s.next, s.now);
    case Skip =>
    case StopEarly =>
    case EndSchedule =>
  }

  lemma {:induction false} WorkerKeepsPace(c: Config, s: State, w: nat, b: WorkerStep)
    requires Paced(c, s) && WorkerEnabled(c, s, w, b)
    ensures Paced(c, WorkerNext(c, s, w, b))
  {
    match b
    case Take =>
      var rest := s.jobs[1..];
      assert OnTime(c, s.jobs[0], s.now);
      assert forall i :: 0 <= i < |rest| ==> rest[i] == s.jobs[i + 1];
    case Reply(_, _) => assert WorkerOnTime(c, s.workers[w]);
    case Deliver => assert WorkerOnTime(c, s.workers[w]);
    case Exit =>
  }

  lemma {:induction false} LoopKeepsPace(c: Config, s: State, l: LoopStep)
    requires Paced(c, s) && LoopEnabled(c, s, l)
    ensures Paced(c, LoopNext(c, s, l))
  {
    match l
    case CloseResults =>
    case Record =>
      var rest := s.results[1..];
      assert OnTime(c, s.results[0].job, s.results[0].started);
      assert forall i :: 0 <= i < |rest| ==> rest[i] == s.results[i + 1];
    case SeeClosed =>
    case WindowFires =>
    case SeeCancel =>
    case EndLoop =>
  }

  lemma {:induction false} StepKeepsPace(c: Config, s: State, step: Step)
    requires Paced(c, s) && Enabled(c, s, step)
    ensures Paced(c, Next(c, s, step))
  {
    match step
    case Tick(_) =>
    case Cancel =>
    case Scheduler(a) => SchedulerKeepsPace(c, s, a);
    case Work(w, b) => WorkerKeepsPace(c, s, w, b);
    case Loop(l) => LoopKeepsPace(c, s, l);
  }

  // Whatever the interleaving, no request is sent before its time.
  lemma {:induction false} NeverAheadOfSchedule(c: Config, steps: seq<Step>)
    requires Run(c, Init(c), steps).Some?
    ensures Paced(c, Run(c, Init(c), steps).value)
    decreases |steps|
  {
    if |steps| > 0 {
      var init := steps[..|steps| - 1];
      NeverAheadOfSchedule(c, init);
      StepKeepsPace(c, Run(c, Init(c), init).value, steps[|steps| - 1]);
    }
  }

  // ----- progress -----

  // Something other than the passing of time can happen, or the scheduler
  // waits for the next job's time, or the loop only waits for the end of its
  // window.
  lemma {:induction false} NeverStuck(c: Config, steps: seq<Step>) returns (step: Step)
    requires c.Valid() && Run(c, Init(c), steps).Some? && !Run(c, Init(c), steps).value.finished
    ensures var s := Run(c, Init(c), steps).value;
            || (Enabled(c, s, step) && !step.Tick? && !step.Cancel?)
            || (!s.scheduled && s.next < c.jobs && s.now < Due(c, s.next) <= c.active)
            || (s.workersDone && !s.windowElapsed && s.now < c.window)
  {
    var s := Run(c, Init(c), steps).value;
    RunInv(c, steps);
    if !s.scheduled {
      if s.next < c.jobs {
        DueWhileActive(c, s.next);
      }
      step := Scheduler(if s.next == c.jobs then EndSchedule else if s.now > c.active then StopEarly
                        else if |s.jobs| < 2 * c.concurrency then Offer else Skip);
    } else if w :| 0 <= w < |s.workers| && !s.workers[w].Exited? {
      step := Work(w, match s.workers[w]
                      case Waiting => if |s.jobs| > 0 then Take else Exit
                      case Sending(_, _) => Reply(false, true)
                      case Holding(_) => Deliver
                      case Exited => Exit);
      if s.workers[w].Holding? {
        ResultsNeverBlock(c, steps, w);
      }
    } else if !s.closed {
      step := Loop(CloseResults);
    } else if !s.workersDone {
      step := Loop(if |s.results| > 0 then Record else SeeClosed);
    } else if s.windowElapsed {
      step := Loop(EndLoop);
    } else {
      step := Loop(WindowFires);
    }
  }

  function WorkerRank(w: Worker): nat {
    match w
    case Waiting => 1
    case Sending(_, _) => 4
    case Holding(_) => 3
    case Exited => 0
  }

  function WorkersRank(ws: seq<Worker>): nat {
    if |ws| == 0 then 0 else WorkersRank(ws[..|ws| - 1]) + WorkerRank(ws[|ws| - 1])
  }

  function Flag(b: bool): nat {
    if b then 0 else 1
  }

  // How much is left to do.
  function Rank(c: Config, s: State): int {
    5 * (c.jobs - s.next) + 4 * |s.jobs| + WorkersRank(s.workers) + |s.results| +
    Flag(s.scheduled) + Flag(s.closed) + Flag(s.workersDone) + Flag(s.windowElapsed) + Flag(s.aborted) + Flag(s.finished)
  }

  lemma {:induction false} WorkersRankUpdate(ws: seq<Worker>, w: nat, x: Worker)
    requires w < |ws|
    ensures WorkersRank(ws[w := x]) == WorkersRank(ws) - WorkerRank(ws[w]) + WorkerRank(x)
  {
    var init, more := ws[..|ws| - 1], ws[w := x];
    if w == |ws| - 1 {
      assert more[..|ws| - 1] == init;
    } else {
      WorkersRankUpdate(init, w, x);
      assert more[..|ws| - 1] == init[w := x];
    }
  }

  lemma {:induction false} SchedulerUsesUpRank(c: Config, s: State, a: SchedulerStep)
    requires SchedulerEnabled(c, s, a)
    ensures Rank(c, SchedulerNext(c, s, a)) < Rank(c, s)
  {
  }

  lemma {:induction false} WorkerUsesUpRank(c: Config, s: State, w: nat, b: WorkerStep)
    requires WorkerEnabled(c, s, w, b)
    ensures Rank(c, WorkerNext(c, s, w, b)) < Rank(c, s)
  {
    var t := WorkerNext(c, s, w, b);
    var x := t.workers[w];
    WorkersRankUpdate(s.workers, w, x);
    assert t.workers == s.workers[w := x];
    assert WorkerRank(x) + 4 * |t.jobs| + |t.results| < WorkerRank(s.workers[w]) + 4 * |s.jobs| + |s.results|;
  }

  lemma {:induction false} LoopUsesUpRank(c: Config, s: State, l: LoopStep)
    requires LoopEnabled(c, s, l)
    ensures Rank(c, LoopNext(c, s, l)) < Rank(c, s)
  {
  }

  // Every step but the clock and the cancellation uses up some of it, so a
  // run cannot go on for ever: once the window has passed the loop ends.
  lemma {:induction false} StepsUseUpRank(c: Config, s: State, step: Step)
    requires s.next <= c.jobs && Enabled(c, s, step) && !step.Tick? && !step.Cancel?
    ensures 0 <= Rank(c, s) && Rank(c, Next(c, s, step)) < Rank(c, s)
  {
    match step
    case Scheduler(a) => SchedulerUsesUpRank(c, s, a);
    case Work(w, b) => WorkerUsesUpRank(c, s, w, b);
    case Loop(l) => LoopUsesUpRank(c, s, l);
  }
}
