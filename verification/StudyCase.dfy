/** One measured case of a study: which repetitions a report must hold and how the case ends. */
module StudyCase {
  import opened Basics
  import opened Errors

  // ----- reports -----

  // A run of a pipeline or recovery case; `passed` is the verdict on its
  // deliveries, `limited` says that its timing or generator fell short.
  datatype Repetition = Repetition(number: int, correct: bool, passed: bool, limited: bool)

  // What a database run writes with; other cases have no write method.
  datatype Write = NoWrite | Insert | BatchInsert | CopyMerge | Other(name: string)

  // A run of a database case.
  datatype WriteRun = WriteRun(
    write: Write, number: int, correct: bool, elapsed: int, submitted: int, inserted: int, duplicates: int)

  datatype Report =
    | Pipeline(runs: seq<Repetition>)
    | Recovery(runs: seq<Repetition>)
    | Database(repetitions: int, writes: seq<WriteRun>)
    | Unknown

  // ----- which repetitions are measured -----

  // What a run stands for.
  datatype Slot = Slot(write: Write, number: int)

  datatype Entry = Entry(slot: Slot, good: bool)

  function SlotOf(r: Repetition): Slot {
    Slot(NoWrite, r.number)
  }

  predicate Accounted(w: WriteRun) {
    && w.correct && w.elapsed > 0 && w.submitted > 0 && w.inserted >= 0 && w.duplicates >= 0
    && w.inserted + w.duplicates == w.submitted
  }

  function EntriesOf(report: Report): (es: seq<Entry>) {
    match report
    case Pipeline(runs) => seq(|runs|, i requires 0 <= i < |runs| => Entry(SlotOf(runs[i]), runs[i].correct))
    case Recovery(runs) => seq(|runs|, i requires 0 <= i < |runs| => Entry(SlotOf(runs[i]), runs[i].correct))
    case Database(_, writes) =>
      seq(|writes|, i requires 0 <= i < |writes| => Entry(Slot(writes[i].write, writes[i].number), Accounted(writes[i])))
    case Unknown => []
  }

  function Slots(es: seq<Entry>): set<Slot> {
    if |es| == 0 then {} else Slots(es[..|es| - 1]) + {es[|es| - 1].slot}
  }

  // Every run is good, and none repeats an earlier one.
  predicate GoodOnce(es: seq<Entry>) {
    |es| == 0 || (es[|es| - 1].good && es[|es| - 1].slot !in Slots(es[..|es| - 1]) && GoodOnce(es[..|es| - 1]))
  }

  lemma {:induction false} SlotsMember(es: seq<Entry>, s: Slot)
    ensures s in Slots(es) <==> exists i :: 0 <= i < |es| && es[i].slot == s
  {
    if |es| > 0 {
      SlotsMember(es[..|es| - 1], s);
    }
  }

  lemma {:induction false} GoodOnceMeans(es: seq<Entry>)
    ensures GoodOnce(es) <==>
            (forall i :: 0 <= i < |es| ==> es[i].good) && (forall i, j :: 0 <= i < j < |es| ==> es[i].slot != es[j].slot)
  {
    if |es| > 0 {
      GoodOnceMeans(es[..|es| - 1]);
      SlotsMember(es[..|es| - 1], es[|es| - 1].slot);
    }
  }

  predicate IsWrite(write: Write) {
    write.Insert? || write.BatchInsert? || write.CopyMerge?
  }

  function SlotsAt(database: bool, n: nat): set<Slot> {
    if database then {Slot(Insert, n), Slot(BatchInsert, n), Slot(CopyMerge, n)} else {Slot(NoWrite, n)}
  }

  // Repetitions 1..n, of every write method in a database case.
  function SlotsUpTo(database: bool, n: nat): (slots: set<Slot>)
    ensures forall s :: s in slots <==> (if database then IsWrite(s.write) else s.write.NoWrite?) && 1 <= s.number <= n
  {
    if n == 0 then {} else SlotsUpTo(database, n - 1) + SlotsAt(database, n)
  }

  lemma {:induction false} DisjointSize<T>(a: set<T>, b: set<T>)
    requires a !! b
    ensures |a + b| == |a| + |b|
  {
  }

  lemma {:induction false} SlotCount(database: bool, n: nat)
    ensures |SlotsUpTo(database, n)| == if database then 3 * n else n
  {
    if n > 0 {
      SlotCount(database, n - 1);
      DisjointSize(SlotsUpTo(database, n - 1), SlotsAt(database, n));
    }
  }

  // Exactly the repetitions 1..count, each good and none twice; a database
  // case has at least three.
  predicate Validated(report: Report, count: nat) {
    && !report.Unknown?
    && (report.Database? ==> report.repetitions == count && count >= 3)
    && GoodOnce(EntriesOf(report)) && Slots(EntriesOf(report)) == SlotsUpTo(report.Database?, count)
  }

  // ----- the loops that check it -----

  lemma {:induction false} GoodOncePrefix(es: seq<Entry>, i: nat)
    requires i <= |es|
    ensures GoodOnce(es) ==> GoodOnce(es[..i])
    ensures Slots(es[..i]) <= Slots(es)
    decreases |es|
  {
    if i == |es| {
      assert es[..i] == es;
    } else {
      GoodOncePrefix(es[..|es| - 1], i);
      assert es[..|es| - 1][..i] == es[..i];
    }
  }

  // What a valid list requires of its i-th entry, and what that entry adds.
  lemma {:induction false} EntryStep(es: seq<Entry>, i: nat, slots: set<Slot>)
    requires i < |es| && GoodOnce(es[..i]) && Slots(es[..i]) <= slots
    ensures GoodOnce(es) && Slots(es) == slots ==> es[i].good && es[i].slot in slots && es[i].slot !in Slots(es[..i])
    ensures es[i].good && es[i].slot in slots && es[i].slot !in Slots(es[..i]) ==>
              GoodOnce(es[..i + 1]) && Slots(es[..i + 1]) <= slots
    ensures Slots(es[..i + 1]) == Slots(es[..i]) + {es[i].slot}
  {
    GoodOncePrefix(es, i + 1);
    assert es[..i + 1][..i] == es[..i];
    assert es[i].slot in Slots(es[..i + 1]);
  }

  lemma {:induction false} SlotsOfDistinct(es: seq<Entry>)
    requires GoodOnce(es)
    ensures |Slots(es)| == |es|
  {
    if |es| > 0 {
      SlotsOfDistinct(es[..|es| - 1]);
    }
  }

  // As many distinct good entries as there are slots fill all of them.
  lemma {:induction false} FullWhenCounted(es: seq<Entry>, database: bool, n: nat)
    requires GoodOnce(es) && Slots(es) <= SlotsUpTo(database, n)
    ensures Slots(es) == SlotsUpTo(database, n) <==> |es| == if database then 3 * n else n
  {
    SlotsOfDistinct(es);
    SlotCount(database, n);
    SubsetSize(Slots(es), SlotsUpTo(database, n));
  }

  method ValidateRuns(runs: seq<Repetition>, count: nat) returns (ok: bool)
    ensures ok <==> Validated(Pipeline(runs), count)
    ensures ok <==> Validated(Recovery(runs), count)
  {
    ghost var es, slots := EntriesOf(Pipeline(runs)), SlotsUpTo(false, count);
    assert es == EntriesOf(Recovery(runs));
    var seen: set<Slot>, i := {}, 0;
    while i < |runs|
      invariant 0 <= i <= |runs|
      invariant GoodOnce(es[..i]) && seen == Slots(es[..i]) && seen <= slots
    {
      EntryStep(es, i, slots);
      if !runs[i].correct || runs[i].number < 1 || runs[i].number > count || SlotOf(runs[i]) in seen {
        return false;
      }
      seen := seen + {SlotOf(runs[i])};
      i := i + 1;
    }
    assert es[..i] == es;
    SlotsOfDistinct(es);
    FullWhenCounted(es, false, count);
    ok := |seen| == count;
  }

  method ValidateWrites(repetitions: int, writes: seq<WriteRun>, count: nat) returns (ok: bool)
    ensures ok <==> Validated(Database(repetitions, writes), count)
  {
    ghost var es, slots := EntriesOf(Database(repetitions, writes)), SlotsUpTo(true, count);
    if GoodOnce(es) && Slots(es) == slots {
      FullWhenCounted(es, true, count);
    }
    if repetitions < 3 || |writes| != 3 * repetitions || repetitions != count {
      return false;
    }
    var seen: set<Slot>, i := {}, 0;
    while i < |writes|
      invariant 0 <= i <= |writes|
      invariant GoodOnce(es[..i]) && seen == Slots(es[..i]) && seen <= slots
    {
      EntryStep(es, i, slots);
      var slot := Slot(writes[i].write, writes[i].number);
      if !IsWrite(slot.write) || slot.number < 1 || slot.number > repetitions || slot in seen || !Accounted(writes[i]) {
        return false;
      }
      seen := seen + {slot};
      i := i + 1;
    }
    assert es[..i] == es;
    FullWhenCounted(es, true, count);
    ok := true;
  }

  // ----- how a case ends -----

  datatype CaseStatus = Pending | Running | Complete | Limited | Failed | Incomplete

  predicate IsDone(status: CaseStatus) {
    status == Complete || status == Limited
  }

  // What the runner of a case hands back.
  datatype Measurement = Measurement(report: Report, error: Option<Err>)

  // All deliveries were verified and only the observations failed.
  predicate VerifiedObservationOnly(report: Report, count: nat, error: Option<Err>) {
    && report.Pipeline? && error.Some? && ObservationOnly(error.value) && |report.runs| == count
    && forall i :: 0 <= i < |report.runs| ==> report.runs[i].correct && report.runs[i].passed
  }

  // The error after the check of the repetitions, which is made when the
  // measurement is usable.
  function CheckedError(m: Measurement, count: nat): Option<Err> {
    if m.error.None? || VerifiedObservationOnly(m.report, count, m.error) then
      Join([m.error, if Validated(m.report, count) then None else Some(Plain)])
    else m.error
  }

  predicate ObservationLimited(m: Measurement, count: nat) {
    VerifiedObservationOnly(m.report, count, CheckedError(m, count))
  }

  // Some run fell short of its load or its observation.
  predicate AnyLimited(report: Report) {
    (report.Pipeline? || report.Recovery?) && exists i :: 0 <= i < |report.runs| && report.runs[i].limited
  }

  function ReportedOutcome(report: Report): CaseStatus {
    if AnyLimited(report) then Limited else Complete
  }

  method OutcomeOf(report: Report) returns (status: CaseStatus)
    ensures status == ReportedOutcome(report)
  {
    if report.Pipeline? || report.Recovery? {
      var i := 0;
      while i < |report.runs|
        invariant 0 <= i <= |report.runs|
        invariant forall j :: 0 <= j < i ==> !report.runs[j].limited
      {
        if report.runs[i].limited {
          return Limited;
        }
        i := i + 1;
      }
    }
    status := Complete;
  }

  // `stops`: the study ends with an error after this case.
  datatype Outcome = Outcome(report: Report, status: CaseStatus, stops: bool)

  function Classify(m: Measurement, count: nat, cancelled: bool): Outcome {
    var e, limited := CheckedError(m, count), ObservationLimited(m, count);
    Outcome(m.report,
            if e.None? then ReportedOutcome(m.report)
            else if cancelled then Incomplete
            else if limited then Limited
            else Failed,
            e.Some? && !limited)
  }

  // The study goes on although the case is left incomplete.
  predicate LeavesIncomplete(o: Outcome) {
    !o.stops && o.status == Incomplete
  }

  lemma {:induction false} CheckedIsJoined(m: Measurement, count: nat)
    requires CheckedError(m, count).None? || ObservationLimited(m, count)
    ensures Validated(m.report, count)
  {
    var errs := [m.error, if Validated(m.report, count) then None else Some(Plain)];
    if m.error.None? || VerifiedObservationOnly(m.report, count, m.error) {
      JoinIsHarmless(errs);
      assert Harmless(errs[1]);
    }
  }

  // A study goes on past a case, and a case is finished, only with every
  // repetition validated; a case is passed unfinished exactly when the study
  // was cancelled and only its observations failed.
  lemma {:induction false} ClassifyIsExact(m: Measurement, count: nat, cancelled: bool)
    ensures var o := Classify(m, count, cancelled);
            && o.report == m.report
            && (!o.stops || IsDone(o.status) ==> Validated(m.report, count))
            && (IsDone(o.status) ==> !o.stops)
            && (LeavesIncomplete(o) <==> cancelled && ObservationLimited(m, count))
            && (!o.stops && !LeavesIncomplete(o) ==> IsDone(o.status))
            && (o.status == Complete <==> CheckedError(m, count).None? && !AnyLimited(m.report))
            && (o.status == Limited <==>
                  (CheckedError(m, count).None? && AnyLimited(m.report)) || (!cancelled && ObservationLimited(m, count)))
  {
    if CheckedError(m, count).None? || ObservationLimited(m, count) {
      CheckedIsJoined(m, count);
    }
  }

  method ValidateReport(report: Report, count: nat) returns (ok: bool)
    ensures ok <==> Validated(report, count)
  {
    match report
    case Pipeline(runs) => ok := ValidateRuns(runs, count);
    case Recovery(runs) => ok := ValidateRuns(runs, count);
    case Database(repetitions, writes) => ok := ValidateWrites(repetitions, writes, count);
    case Unknown => ok := false;
  }

  // What the runner does with a measurement: the repetitions are checked when
  // the measurement is usable, and the status follows from the joined error.
  method Conclude(m: Measurement, count: nat, cancelled: bool) returns (o: Outcome)
    ensures o == Classify(m, count, cancelled)
    ensures !o.stops || IsDone(o.status) ==> Validated(m.report, count)
  {
    ClassifyIsExact(m, count, cancelled);
    var error := m.error;
    if error.None? || VerifiedObservationOnly(m.report, count, error) {
      var ok := ValidateReport(m.report, count);
      error := Join([error, if ok then None else Some(Plain)]);
    }
    var status := OutcomeOf(m.report);
    var limited := VerifiedObservationOnly(m.report, count, error);
    if error.Some? {
      status := Failed;
      if limited {
        status := Limited;
      }
      if cancelled {
        status := Incomplete;
      }
    }
    o := Outcome(m.report, status, error.Some? && !limited);
  }
}
