/**
  * The observer goroutine and the accounting loop: at most one observation is
  * outstanding, so neither side ever blocks and cancellation always lets the
  * worker be joined.
  */
module Observer {
  import opened Basics
  import opened Accounting

  datatype Worker = Listening | Querying(started: int) | Holding(poll: PollResult) | Gone

  // `request` and `result` are channels with one slot each. The result channel
  // is closed exactly when the worker is gone.
  datatype State = State(
    now: int, cancelled: bool, request: bool, worker: Worker, result: Option<PollResult>,
    inFlight: bool, failed: bool, joined: bool, polls: seq<PollResult>)

  datatype Step =
    | Tick(dt: nat)
    | Cancel                // the observation context is cancelled
    | Ask                   // loop: request an observation
    | Receive(failed: bool) // loop: record a result; a failure ends the requests
    | Join                  // loop: the worker is done
    | TakeRequest           // worker: start a query, or stop if cancelled
    | Stop                  // worker: sees the cancellation while it waits
    | QueryReturns(rows: seq<Row>, error: PollError) // worker: the query is over
    | Deliver               // worker: send the result

  predicate IsWorkerStep(step: Step) {
    step.TakeRequest? || step.Stop? || step.QueryReturns? || step.Deliver?
  }

  function Init(): State {
    State(0, false, false, Listening, None, false, false, false, [])
  }

  // The loop asks only when nothing is outstanding and nothing has failed; a
  // send needs a free slot.
  predicate WantsToAsk(s: State) {
    !s.inFlight && !s.failed && !s.joined
  }

  predicate Enabled(s: State, step: Step) {
    match step
    case Tick(_) => true
    case Cancel => !s.cancelled
    case Ask => WantsToAsk(s) && !s.request
    case Receive(_) => s.result.Some?
    case Join => s.worker.Gone? && s.cancelled && !s.joined
    case TakeRequest => s.worker.Listening? && s.request
    case Stop => s.worker.Listening? && s.cancelled
    case QueryReturns(_, _) => s.worker.Querying?
    case Deliver => s.worker.Holding? && s.result.None?
  }

  function Next(s: State, step: Step): State
    requires Enabled(s, step)
  {
    match step
    case Tick(dt) => s.(now := s.now + dt)
    case Cancel => s.(cancelled := true)
    case Ask => s.(request := true, inFlight := true)
    case Receive(failed) =>
      s.(result := None, inFlight := false, failed := s.failed || failed, polls := s.polls + [s.result.value])
    case Join => s.(joined := true)
    case TakeRequest => s.(request := false, worker := if s.cancelled then Gone else Querying(s.now))
    case Stop => s.(worker := Gone)
    case QueryReturns(rows, error) => s.(worker := Holding(PollResult(s.worker.started, s.now, rows, error)))
    case Deliver => s.(result := Some(s.worker.poll), worker := Listening)
  }

  function Run(s: State, steps: seq<Step>): Option<State> {
    if |steps| == 0 then Some(s)
    else
      var t := Run(s, steps[..|steps| - 1]);
      var last := steps[|steps| - 1];
      if t.Some? && Enabled(t.value, last) then Some(Next(t.value, last)) else None
  }

  // ----- the invariant -----

  function Count(b: bool): nat {
    if b then 1 else 0
  }

  predicate Busy(w: Worker) {
    w.Querying? || w.Holding?
  }

  // How many places hold the outstanding request.
  function Outstanding(s: State): nat {
    Count(s.request) + Count(Busy(s.worker)) + Count(s.result.Some?)
  }

  // The time from which a later query can start.
  function Latest(s: State): int {
    if s.result.Some? then s.result.value.finished
    else if |s.polls| > 0 then s.polls[|s.polls| - 1].finished
    else 0
  }

  ghost predicate Ordered(polls: seq<PollResult>) {
    |polls| == 0 ||
    ( var last := polls[|polls| - 1];
      && (if |polls| == 1 then 0 else polls[|polls| - 2].finished) <= last.started <= last.finished
      && Ordered(polls[..|polls| - 1]))
  }

  ghost predicate Tokens(s: State) {
    && Outstanding(s) <= Count(s.inFlight)
    && (s.inFlight && !s.worker.Gone? ==> Outstanding(s) == 1)
    && (s.worker.Gone? ==> s.cancelled)
  }

  ghost predicate Times(s: State) {
    && Ordered(s.polls) && (s.result.Some? ==> Ordered(s.polls + [s.result.value]))
    && 0 <= Latest(s) <= s.now
    && (s.worker.Querying? ==> Latest(s) <= s.worker.started <= s.now)
    && (s.worker.Holding? ==> Latest(s) <= s.worker.poll.started <= s.worker.poll.finished <= s.now)
  }

  ghost predicate Inv(s: State) {
    Tokens(s) && Times(s)
  }

  lemma {:induction false} OrderedAppend(polls: seq<PollResult>, p: PollResult)
    requires Ordered(polls) && (if |polls| == 0 then 0 else polls[|polls| - 1].finished) <= p.started <= p.finished
    ensures Ordered(polls + [p])
  {
    assert (polls + [p])[..|polls|] == polls;
  }

  lemma {:induction false} StepKeepsTokens(s: State, step: Step)
    requires Tokens(s) && Enabled(s, step)
    ensures Tokens(Next(s, step))
  {
  }

  lemma {:induction false} WorkerKeepsTimes(s: State, step: Step)
    requires Times(s) && Enabled(s, step) && IsWorkerStep(step)
    ensures Times(Next(s, step))
  {
    if step.Deliver? {
      OrderedAppend(s.polls, s.worker.poll);
    }
  }

  lemma {:induction false} LoopKeepsTimes(s: State, step: Step)
    requires Times(s) && Enabled(s, step) && !IsWorkerStep(step)
    ensures Times(Next(s, step))
  {
  }

  lemma {:induction false} StepKeepsInv(s: State, step: Step)
    requires Inv(s) && Enabled(s, step)
    ensures Inv(Next(s, step))
  {
    StepKeepsTokens(s, step);
    if IsWorkerStep(step) {
      WorkerKeepsTimes(s, step);
    } else {
      LoopKeepsTimes(s, step);
    }
  }

  lemma {:induction false} RunInv(steps: seq<Step>)
    requires Run(Init(), steps).Some?
    ensures Inv(Run(Init(), steps).value)
    decreases |steps|
  {
    if |steps| > 0 {
      var init := steps[..|steps| - 1];
      RunInv(init);
      StepKeepsInv(Run(Init(), init).value, steps[|steps| - 1]);
    }
  }

  // ----- main results -----

  // In every interleaving an outstanding request is in at most one place, so
  // neither channel send can block: the request slot is free whenever the loop
  // wants to ask, and the result slot whenever the worker has a result.
  lemma {:induction false} SendsNeverBlock(steps: seq<Step>)
    requires Run(Init(), steps).Some?
    ensures var s := Run(Init(), steps).value;
            && Outstanding(s) <= 1
            && (WantsToAsk(s) ==> Enabled(s, Ask))
            && (s.worker.Holding? ==> Enabled(s, Deliver))
  {
    RunInv(steps);
  }

  // ----- cancellation -----

  // How many steps a cancelled worker has left at most.
  function Rank(w: Worker): nat {
    match w
    case Gone => 0
    case Listening => 1
    case Holding(_) => 2
    case Querying(_) => 3
  }

  function WorkerSteps(steps: seq<Step>): nat {
    if |steps| == 0 then 0
    else WorkerSteps(steps[..|steps| - 1]) + Count(IsWorkerStep(steps[|steps| - 1]))
  }

  lemma {:induction false} StepUsesRank(s: State, step: Step)
    requires Enabled(s, step) && s.cancelled
    ensures Next(s, step).cancelled && Rank(Next(s, step).worker) + Count(IsWorkerStep(step)) <= Rank(s.worker)
  {
  }

  lemma {:induction false} RunUsesRank(s: State, steps: seq<Step>)
    requires Run(s, steps).Some? && s.cancelled
    ensures Run(s, steps).value.cancelled && Rank(Run(s, steps).value.worker) + WorkerSteps(steps) <= Rank(s.worker)
    decreases |steps|
  {
    if |steps| > 0 {
      var init := steps[..|steps| - 1];
      RunUsesRank(s, init);
      StepUsesRank(Run(s, init).value, steps[|steps| - 1]);
    }
  }

  // The step of its own that a worker can take next.
  function NextOwnStep(w: Worker): Step
    requires !w.Gone?
  {
    match w
    case Listening => Stop
    case Querying(_) => QueryReturns([], NoError)
    case Holding(_) => Deliver
  }

  // After cancellation, on every schedule: the worker takes at most three more
  // steps, until it is gone some step of its own is always possible, once gone
  // it stays gone, and then it can be joined.
  lemma {:induction false} CancelledWorkerExits(steps: seq<Step>, more: seq<Step>)
    requires Run(Init(), steps).Some? && Run(Init(), steps).value.cancelled
    requires Run(Init(), steps + more).Some?
    ensures var s, t := Run(Init(), steps).value, Run(Init(), steps + more).value;
            && Rank(t.worker) + WorkerSteps(more) <= Rank(s.worker) <= 3
            && (!t.worker.Gone? ==> IsWorkerStep(NextOwnStep(t.worker)) && Enabled(t, NextOwnStep(t.worker)))
            && (s.worker.Gone? ==> t.worker.Gone?)
            && (t.worker.Gone? && !t.joined ==> Enabled(t, Join))
  {
    RunInv(steps + more);
    RunConcat(Init(), steps, more);
    RunUsesRank(Run(Init(), steps).value, more);
  }

  lemma {:induction false} RunConcat(s: State, a: seq<Step>, b: seq<Step>)
    requires Run(s, a).Some?
    ensures Run(s, a + b) == Run(Run(s, a).value, b)
    decreases |b|
  {
    if |b| == 0 {
      assert a + b == a;
    } else {
      assert (a + b)[..|a + b| - 1] == a + b[..|b| - 1];
      RunConcat(s, a, b[..|b| - 1]);
    }
  }

  // ----- the recorded observations -----

  // Recorded observations are in the order of time, so the backlog points
  // built from them are sorted.
  lemma {:induction false} PollsAreOrdered(steps: seq<Step>, i: nat, j: nat)
    requires Run(Init(), steps).Some? && i < j < |Run(Init(), steps).value.polls|
    ensures var polls := Run(Init(), steps).value.polls; polls[i].finished <= polls[j].started <= polls[j].finished
  {
    RunInv(steps);
    OrderedPair(Run(Init(), steps).value.polls, i, j);
  }

  lemma {:induction false} OrderedPair(polls: seq<PollResult>, i: nat, j: nat)
    requires Ordered(polls) && i < j < |polls|
    ensures polls[i].finished <= polls[j].started <= polls[j].finished
    decreases |polls|
  {
    var init := polls[..|polls| - 1];
    if j < |init| {
      OrderedPair(init, i, j);
    } else if i < j - 1 {
      OrderedPair(init, i, j - 1);
    }
  }

  // What the accounting needs of them: order, and times within the run.
  lemma {:induction false} PollsInOrder(steps: seq<Step>)
    requires Run(Init(), steps).Some?
    ensures var s := Run(Init(), steps).value;
            InOrder(s.polls) && forall i :: 0 <= i < |s.polls| ==> 0 <= s.polls[i].finished <= s.now
  {
    RunInv(steps);
    var s := Run(Init(), steps).value;
    OrderedIsInOrder(s.polls);
    forall i | 0 <= i < |s.polls| ensures 0 <= s.polls[i].finished <= s.now {
      OrderedTimes(s.polls, i);
      if s.result.Some? {
        assert (s.polls + [s.result.value])[..|s.polls|] == s.polls;
      }
    }
  }

  lemma {:induction false} OrderedIsInOrder(polls: seq<PollResult>)
    requires Ordered(polls)
    ensures InOrder(polls)
  {
    if |polls| > 1 {
      OrderedIsInOrder(polls[..|polls| - 1]);
    }
  }

  lemma {:induction false} OrderedTimes(polls: seq<PollResult>, i: nat)
    requires Ordered(polls) && i < |polls|
    ensures 0 <= polls[i].finished <= polls[|polls| - 1].finished
    decreases |polls|
  {
    if |polls| > 1 {
      OrderedTimes(polls[..|polls| - 1], if i < |polls| - 1 then i else 0);
      OrderedPair(polls, |polls| - 2, |polls| - 1);
    }
  }

  // ----- where recorded observations come from -----

  // The time after the given steps.
  function Clock(steps: seq<Step>): int {
    if |steps| == 0 then 0
    else
      var last := steps[|steps| - 1];
      Clock(steps[..|steps| - 1]) + if last.Tick? then last.dt else 0
  }

  // When the last request was taken.
  function TakenAt(steps: seq<Step>): int {
    if |steps| == 0 then 0
    else if steps[|steps| - 1].TakeRequest? then Clock(steps[..|steps| - 1])
    else TakenAt(steps[..|steps| - 1])
  }

  // What the queries returned, in order, each from the time its request was
  // taken to the time it was over.
  function Answers(steps: seq<Step>): seq<PollResult> {
    if |steps| == 0 then []
    else
      var init, last := steps[..|steps| - 1], steps[|steps| - 1];
      if last.QueryReturns? then Answers(init) + [PollResult(TakenAt(init), Clock(init), last.rows, last.error)]
      else Answers(init)
  }

  // An answer on its way from the worker to the loop.
  function OnItsWay(s: State): seq<PollResult> {
    if s.result.Some? then [s.result.value] else if s.worker.Holding? then [s.worker.poll] else []
  }

  // What a step adds to the answers.
  function AnswerOf(s: State, step: Step): seq<PollResult> {
    if step.QueryReturns? && s.worker.Querying? then [PollResult(s.worker.started, s.now, step.rows, step.error)] else []
  }

  lemma {:induction false} StepAnswers(s: State, step: Step)
    requires Tokens(s) && Enabled(s, step)
    ensures var t := Next(s, step); t.polls + OnItsWay(t) == s.polls + OnItsWay(s) + AnswerOf(s, step)
  {
    match step
    case Tick(_) =>
    case Cancel =>
    case Ask =>
    case Receive(_) =>
    case Join =>
    case TakeRequest =>
    case Stop =>
    case QueryReturns(_, _) =>
    case Deliver =>
  }

  lemma {:induction false} StepTimes(s: State, step: Step)
    requires Enabled(s, step)
    ensures var t := Next(s, step);
            && t.now == s.now + (if step.Tick? then step.dt else 0)
            && (t.worker.Querying? ==> t.worker.started == if step.TakeRequest? then s.now else s.worker.started)
            && (t.worker.Querying? && !step.TakeRequest? ==> s.worker.Querying?)
  {
    match step
    case Tick(_) =>
    case Cancel =>
    case Ask =>
    case Receive(_) =>
    case Join =>
    case TakeRequest =>
    case Stop =>
    case QueryReturns(_, _) =>
    case Deliver =>
  }

  lemma {:induction false} TimesExactly(steps: seq<Step>)
    requires Run(Init(), steps).Some?
    ensures var s := Run(Init(), steps).value;
            s.now == Clock(steps) && (s.worker.Querying? ==> s.worker.started == TakenAt(steps))
    decreases |steps|
  {
    if |steps| > 0 {
      var init := steps[..|steps| - 1];
      TimesExactly(init);
      StepTimes(Run(Init(), init).value, steps[|steps| - 1]);
    }
  }

  // Every answer of the database is recorded once, in order and as it came,
  // but for the one that may still be on its way; none is made up.
  lemma {:induction false} PollsExactly(steps: seq<Step>)
    requires Run(Init(), steps).Some?
    ensures var s := Run(Init(), steps).value;
            s.polls + OnItsWay(s) == Answers(steps) && (!s.inFlight ==> s.polls == Answers(steps))
    decreases |steps|
  {
    RunInv(steps);
    if |steps| > 0 {
      var init := steps[..|steps| - 1];
      PollsExactly(init);
      RunInv(init);
      TimesExactly(init);
      StepAnswers(Run(Init(), init).value, steps[|steps| - 1]);
    }
  }

  lemma {:induction false} StepCancels(s: State, step: Step)
    requires Enabled(s, step)
    ensures Next(s, step).cancelled <==> s.cancelled || step == Cancel
  {
    match step
    case Tick(_) =>
    case Cancel =>
    case Ask =>
    case Receive(_) =>
    case Join =>
    case TakeRequest =>
    case Stop =>
    case QueryReturns(_, _) =>
    case Deliver =>
  }

  // The observation context is cancelled when it was cancelled, not before.
  lemma {:induction false} CancelledExactly(steps: seq<Step>)
    requires Run(Init(), steps).Some?
    ensures Run(Init(), steps).value.cancelled <==> Cancel in steps
    decreases |steps|
  {
    if |steps| > 0 {
      var init, last := steps[..|steps| - 1], steps[|steps| - 1];
      CancelledExactly(init);
      StepCancels(Run(Init(), init).value, last);
      assert steps == init + [last];
    }
  }

  lemma {:induction false} StepKeepsEnd(s: State, step: Step)
    requires Enabled(s, step)
    ensures Next(s, step).failed <==> s.failed || step == Receive(true)
    ensures Next(s, step).joined <==> s.joined || step == Join
  {
    match step
    case Tick(_) =>
    case Cancel =>
    case Ask =>
    case Receive(_) =>
    case Join =>
    case TakeRequest =>
    case Stop =>
    case QueryReturns(_, _) =>
    case Deliver =>
  }

  lemma {:induction false} EndedExactly(steps: seq<Step>)
    requires Run(Init(), steps).Some?
    ensures var s := Run(Init(), steps).value; (s.failed <==> Receive(true) in steps) && (s.joined <==> Join in steps)
    decreases |steps|
  {
    if |steps| > 0 {
      var init, last := steps[..|steps| - 1], steps[|steps| - 1];
      EndedExactly(init);
      StepKeepsEnd(Run(Init(), init).value, last);
      assert steps == init + [last];
    }
  }

  lemma {:induction false} PrefixRuns(steps: seq<Step>, n: nat)
    requires Run(Init(), steps).Some? && n < |steps|
    ensures Run(Init(), steps[..n]).Some? && Enabled(Run(Init(), steps[..n]).value, steps[n])
    decreases |steps|
  {
    if n < |steps| - 1 {
      PrefixRuns(steps[..|steps| - 1], n);
      assert steps[..|steps| - 1][..n] == steps[..n];
    }
  }

  // Nothing is asked of the database once an observation has failed or the
  // worker was joined.
  lemma {:induction false} NeverAsksAgain(steps: seq<Step>, i: nat, j: nat)
    requires Run(Init(), steps).Some? && i < j < |steps| && (steps[i] == Receive(true) || steps[i] == Join)
    ensures steps[j] != Ask
  {
    PrefixRuns(steps, j);
    EndedExactly(steps[..j]);
    assert steps[..j][i] == steps[i];
  }
}
