/**
  * The study runner: a journal and write-once captures on disk, a process that
  * can stop at any point, and later processes that resume.
  */
module StudyJournal {
  import opened Basics
  import opened Errors
  import opened StudyCase

  // A case of the study and its number of repetitions; ids are distinct.
  datatype Case = Case(id: string, repetitions: nat)

  // Published artifacts. Publishing refuses an existing name.
  datatype Name = Manifest(session: nat) | Resources(session: nat) | Capture(case_: Case, attempt: nat)

  datatype Content = Metadata | Captured(report: Report, status: CaseStatus)

  datatype Progress = Progress(status: CaseStatus, attempt: nat)

  datatype StudyStatus = Created | StudyRunning | StudyComplete | StudyFailed | StudyIncomplete

  datatype Journal = Journal(status: StudyStatus, sessions: nat, cases: map<Case, Progress>)

  type Files = map<Name, Content>

  datatype Disk = Disk(journal: Option<Journal>, files: Files)

  predicate Done(p: Progress) {
    IsDone(p.status)
  }

  // ----- a running process -----

  datatype Pc =
    | Opening
    | SavingBound | LinkingManifest | SavingManifest
    | AtCase(i: nat) | SavingAttempt(i: nat) | Measuring(i: nat)
    | LinkingCapture(i: nat, o: Outcome) | SavingCase(i: nat, o: Outcome)
    | Ending | SavingEnd

  // `slipped` remembers that a case was left incomplete although the loop went
  // on.
  datatype Proc = Proc(mem: Journal, session: nat, pc: Pc, sampling: bool, failed: bool, cancelled: bool, slipped: bool)

  datatype State = State(disk: Disk, proc: Option<Proc>, everCancelled: bool)

  // A save takes effect or not, and is reported as successful or not; a
  // reported success took effect.
  datatype Saved = SavedOk | SavedButFailed | NotSaved

  datatype Step =
    | Create(o: Saved)              // a new study writes its first journal
    | Resume                        // a later process reads the journal
    | GiveUp                        // an error before the stack is bound
    | Bind                          // take the next session number
    | Save(o: Saved)                // write the journal
    | Link(ok: bool)                // publish a manifest or a capture
    | NextCase                      // the head of the case loop
    | Measure(m: Measurement)       // run one case
    | IndexFails                    // the index after a saved case could not be written
    | End(linked: bool, clean: bool) // deferred work: resource samples, cleanup
    | Cancel
    | Crash

  predicate AllDone(j: Journal, cases: seq<Case>) {
    forall i :: 0 <= i < |cases| ==> cases[i] in j.cases && Done(j.cases[cases[i]])
  }

  predicate Saving(pc: Pc) {
    pc.SavingBound? || pc.SavingManifest? || pc.SavingAttempt? || pc.SavingCase? || pc.SavingEnd?
  }

  predicate Linking(pc: Pc) {
    pc.LinkingManifest? || pc.LinkingCapture?
  }

  // The name a linking process is about to publish, and what it holds.
  function Target(cases: seq<Case>, p: Proc): Name
    requires Linking(p.pc) && (p.pc.LinkingCapture? ==> p.pc.i < |cases| && cases[p.pc.i] in p.mem.cases)
  {
    if p.pc.LinkingManifest? then Manifest(p.session)
    else Capture(cases[p.pc.i], p.mem.cases[cases[p.pc.i]].attempt)
  }

  function ContentOf(p: Proc): Content
    requires Linking(p.pc)
  {
    if p.pc.LinkingManifest? then Metadata else Captured(p.pc.o.report, p.pc.o.status)
  }

  // Indices in range and every case in the journal.
  predicate Shaped(cases: seq<Case>, p: Proc) {
    && (forall i :: 0 <= i < |cases| ==> cases[i] in p.mem.cases)
    && match p.pc
       case AtCase(i) => i <= |cases|
       case SavingAttempt(i) => i < |cases|
       case Measuring(i) => i < |cases|
       case LinkingCapture(i, _) => i < |cases|
       case SavingCase(i, _) => i < |cases|
       case _ => true
  }

  predicate Enabled(cases: seq<Case>, s: State, step: Step) {
    match step
    case Create(_) => s.proc.None? && s.disk.journal.None? && s.disk.files == map[]
    case Resume => s.proc.None? && s.disk.journal.Some? && !AllDone(s.disk.journal.value, cases)
    case GiveUp => s.proc.Some? && s.proc.value.pc.Opening?
    case Bind => s.proc.Some? && s.proc.value.pc.Opening?
    case Save(_) => s.proc.Some? && Saving(s.proc.value.pc)
    case Link(ok) =>
      && s.proc.Some? && Shaped(cases, s.proc.value) && Linking(s.proc.value.pc)
      && (ok ==> Target(cases, s.proc.value) !in s.disk.files)
    case NextCase => s.proc.Some? && Shaped(cases, s.proc.value) && s.proc.value.pc.AtCase?
    case Measure(_) => s.proc.Some? && Shaped(cases, s.proc.value) && s.proc.value.pc.Measuring?
    case IndexFails => s.proc.Some? && s.proc.value.pc.AtCase?
    case End(linked, _) =>
      && s.proc.Some? && s.proc.value.pc.Ending?
      && (linked ==> s.proc.value.sampling && Resources(s.proc.value.session) !in s.disk.files)
    case Cancel => s.proc.Some?
    case Crash => s.proc.Some?
  }

  function Fresh(cases: seq<Case>): Journal {
    Journal(Created, 0, map c | c in cases :: Progress(Pending, 0))
  }

  // After a reported failure the deferred work follows.
  function Fails(p: Proc): Proc {
    p.(pc := Ending, failed := true)
  }

  // Where a process goes on after a successful save.
  function AfterSave(p: Proc): Proc
    requires Saving(p.pc)
  {
    match p.pc
    case SavingBound => p.(pc := LinkingManifest)
    case SavingManifest => p.(pc := AtCase(0), sampling := true)
    case SavingAttempt(i) => p.(pc := Measuring(i))
    case SavingCase(i, o) => if o.stops then Fails(p) else p.(pc := AtCase(i + 1))
    case _ => p
  }

  function AfterLink(cases: seq<Case>, p: Proc): Proc
    requires Shaped(cases, p) && Linking(p.pc)
  {
    match p.pc
    case LinkingCapture(i, o) =>
      var now := p.mem.cases[cases[i]].(status := o.status);
      p.(mem := p.mem.(cases := p.mem.cases[cases[i] := now]), pc := SavingCase(i, o),
         slipped := p.slipped || LeavesIncomplete(o))
    case _ => p.(pc := SavingManifest)
  }

  function AfterHead(cases: seq<Case>, p: Proc): Proc
    requires Shaped(cases, p) && p.pc.AtCase?
  {
    var i := p.pc.i;
    if i == |cases| then p.(pc := Ending)
    else if Done(p.mem.cases[cases[i]]) then p.(pc := AtCase(i + 1))
    else if p.cancelled then Fails(p)
    else
      var now := p.mem.cases[cases[i]].(status := Running, attempt := p.mem.cases[cases[i]].attempt + 1);
      p.(mem := p.mem.(cases := p.mem.cases[cases[i] := now]), pc := SavingAttempt(i))
  }

  function AfterEnd(p: Proc, linked: bool, clean: bool): Proc {
    var failed := p.failed || !clean || (p.sampling && !linked);
    var status := if !failed then StudyComplete else if p.cancelled then StudyIncomplete else StudyFailed;
    p.(mem := p.mem.(status := status), pc := SavingEnd, failed := failed)
  }

  function WithProc(s: State, p: Proc): State {
    s.(proc := Some(p))
  }

  // The effect of a save on disk, then the process moves on, fails or exits.
  function AfterSaving(s: State, p: Proc, o: Saved): State
    requires Saving(p.pc)
  {
    var disk := if o.NotSaved? then s.disk else s.disk.(journal := Some(p.mem));
    if p.pc.SavingEnd? then State(disk, None, s.everCancelled)
    else State(disk, Some(if o.SavedOk? then AfterSave(p) else Fails(p)), s.everCancelled)
  }

  function Next(cases: seq<Case>, s: State, step: Step): State
    requires Enabled(cases, s, step)
  {
    match step
    case Create(o) =>
      var j := Fresh(cases);
      State(if o.NotSaved? then s.disk else s.disk.(journal := Some(j)),
            if o.SavedOk? then Some(Proc(j, 1, Opening, false, false, false, false)) else None, s.everCancelled)
    case Resume =>
      var j := s.disk.journal.value;
      WithProc(s, Proc(j, j.sessions + 1, Opening, false, false, false, false))
    case GiveUp => s.(proc := None)
    case Bind =>
      var p := s.proc.value;
      WithProc(s, p.(mem := p.mem.(sessions := p.session, status := StudyRunning), pc := SavingBound))
    case Save(o) => AfterSaving(s, s.proc.value, o)
    case Link(ok) =>
      var p := s.proc.value;
      if ok then State(s.disk.(files := s.disk.files[Target(cases, p) := ContentOf(p)]), Some(AfterLink(cases, p)), s.everCancelled)
      else WithProc(s, Fails(p))
    case NextCase => WithProc(s, AfterHead(cases, s.proc.value))
    case Measure(m) =>
      var p := s.proc.value;
      WithProc(s, p.(pc := LinkingCapture(p.pc.i, Classify(m, cases[p.pc.i].repetitions, p.cancelled))))
    case IndexFails => WithProc(s, Fails(s.proc.value))
    case End(linked, clean) =>
      var p := s.proc.value;
      State(if linked then s.disk.(files := s.disk.files[Resources(p.session) := Metadata]) else s.disk,
            Some(AfterEnd(p, linked, clean)), s.everCancelled)
    case Cancel => State(s.disk, Some(s.proc.value.(cancelled := true)), true)
    case Crash => s.(proc := None)
  }

  function Init(): State {
    State(Disk(None, map[]), None, false)
  }

  function Run(cases: seq<Case>, s: State, steps: seq<Step>): Option<State> {
    if |steps| == 0 then Some(s)
    else
      var t := Run(cases, s, steps[..|steps| - 1]);
      var last := steps[|steps| - 1];
      if t.Some? && Enabled(cases, t.value, last) then Some(Next(cases, t.value, last)) else None
  }

  // ----- the invariant -----

  ghost predicate HasCases(cases: seq<Case>, j: Journal) {
    forall i :: 0 <= i < |cases| ==> cases[i] in j.cases
  }

  // Every published name is covered by the journal on disk.
  ghost predicate NamesCovered(j: Journal, files: Files) {
    forall n :: n in files ==>
      match n
      case Manifest(k) => k <= j.sessions
      case Resources(k) => k <= j.sessions
      case Capture(c, a) => c in j.cases && a <= j.cases[c].attempt
  }

  // The capture of a case holds this status and all its repetitions.
  ghost predicate Backed(c: Case, p: Progress, files: Files) {
    var n := Capture(c, p.attempt);
    n in files && files[n].Captured? && files[n].status == p.status && Validated(files[n].report, c.repetitions)
  }

  ghost predicate DoneBacked(j: Journal, files: Files) {
    forall c :: c in j.cases && Done(j.cases[c]) ==> Backed(c, j.cases[c], files)
  }

  ghost predicate DiskOk(cases: seq<Case>, disk: Disk, everCancelled: bool) {
    match disk.journal
    case None => disk.files == map[]
    case Some(j) =>
      && HasCases(cases, j) && NamesCovered(j, disk.files) && DoneBacked(j, disk.files)
      && (j.status == StudyComplete && !everCancelled ==> AllDone(j, cases))
  }

  // The journal in memory is never behind the one on disk.
  ghost predicate Ahead(j: Journal, mem: Journal) {
    && j.cases.Keys == mem.cases.Keys
    && forall c :: c in j.cases ==>
         j.cases[c].attempt <= mem.cases[c].attempt && (Done(j.cases[c]) ==> mem.cases[c] == j.cases[c])
  }

  predicate BeforeManifest(pc: Pc) {
    pc.Opening? || pc.SavingBound? || pc.LinkingManifest?
  }

  // The session number is this process's own.
  ghost predicate SessionOk(j: Journal, p: Proc, files: Files) {
    && j.sessions <= p.session
    && p.mem.sessions == (if p.pc.Opening? then p.session - 1 else p.session)
    && (p.sampling || !(p.pc.Opening? || p.pc.SavingBound? || p.pc.Ending? || p.pc.SavingEnd?) ==> j.sessions == p.session)
    && (BeforeManifest(p.pc) ==> Manifest(p.session) !in files && !p.sampling)
    && (!p.pc.SavingEnd? ==> Resources(p.session) !in files)
  }

  predicate InAttempt(pc: Pc) {
    pc.SavingAttempt? || pc.Measuring? || pc.LinkingCapture?
  }

  // The attempt number of the case in progress is its own, and on disk before
  // the case is measured.
  ghost predicate AttemptOk(cases: seq<Case>, j: Journal, p: Proc, files: Files)
    requires Shaped(cases, p) && Ahead(j, p.mem)
  {
    InAttempt(p.pc) ==>
      var c := cases[p.pc.i];
      && p.mem.cases[c].status == Running && !p.slipped
      && Capture(c, p.mem.cases[c].attempt) !in files
      && (!p.pc.SavingAttempt? ==> j.cases[c].attempt == p.mem.cases[c].attempt)
  }

  // Cases before index n are finished, unless the run slipped.
  ghost predicate DoneUpTo(cases: seq<Case>, p: Proc, n: nat) {
    p.slipped || forall k :: 0 <= k < n && k < |cases| ==> cases[k] in p.mem.cases && Done(p.mem.cases[cases[k]])
  }

  ghost predicate LoopOk(cases: seq<Case>, p: Proc, everCancelled: bool)
    requires Shaped(cases, p)
  {
    && (p.slipped ==> p.cancelled && !AllDone(p.mem, cases)) && (p.cancelled ==> everCancelled)
    && (!p.pc.Opening? && !p.pc.SavingEnd? ==> p.mem.status == StudyRunning)
    && (BeforeManifest(p.pc) || p.pc.SavingManifest? ==> !p.slipped)
    && match p.pc
       case AtCase(i) => DoneUpTo(cases, p, i)
       case SavingAttempt(i) => DoneUpTo(cases, p, i)
       case Measuring(i) => DoneUpTo(cases, p, i)
       case LinkingCapture(i, o) =>
         && DoneUpTo(cases, p, i) && (LeavesIncomplete(o) ==> p.cancelled)
         && (IsDone(o.status) ==> Validated(o.report, cases[i].repetitions))
         && (!o.stops && !LeavesIncomplete(o) ==> IsDone(o.status))
       case SavingCase(i, o) => !o.stops ==> DoneUpTo(cases, p, i + 1)
       case Ending => !p.failed ==> DoneUpTo(cases, p, |cases|)
       case SavingEnd => p.mem.status == StudyComplete ==> DoneUpTo(cases, p, |cases|)
       case _ => true
  }

  ghost predicate ProcOk(cases: seq<Case>, j: Journal, p: Proc, files: Files, everCancelled: bool) {
    && Shaped(cases, p) && Ahead(j, p.mem) && DoneBacked(p.mem, files)
    && SessionOk(j, p, files) && AttemptOk(cases, j, p, files) && LoopOk(cases, p, everCancelled)
  }

  ghost predicate Inv(cases: seq<Case>, s: State) {
    && DiskOk(cases, s.disk, s.everCancelled)
    && (s.proc.Some? ==>
          s.disk.journal.Some? && ProcOk(cases, s.disk.journal.value, s.proc.value, s.disk.files, s.everCancelled))
  }

  // ----- every step keeps it -----

  lemma {:induction false} OpenKeeps(cases: seq<Case>, s: State, step: Step)
    requires Inv(cases, s) && Enabled(cases, s, step) && (step.Create? || step.Resume?)
    ensures Inv(cases, Next(cases, s, step))
  {
  }

  lemma {:induction false} BindKeeps(cases: seq<Case>, s: State)
    requires Inv(cases, s) && Enabled(cases, s, Bind)
    ensures Inv(cases, Next(cases, s, Bind))
  {
  }

  // What is in memory may go to disk.
  lemma {:induction false} MemIsOk(cases: seq<Case>, j: Journal, p: Proc, files: Files, everCancelled: bool)
    requires ProcOk(cases, j, p, files, everCancelled) && NamesCovered(j, files) && !p.pc.Opening?
    ensures DiskOk(cases, Disk(Some(p.mem), files), everCancelled)
  {
    assert p.mem.status == StudyComplete && !everCancelled ==> DoneUpTo(cases, p, |cases|);
  }

  lemma {:induction false} SavedLoopOk(cases: seq<Case>, p: Proc, everCancelled: bool)
    requires Shaped(cases, p) && LoopOk(cases, p, everCancelled) && Saving(p.pc) && !p.pc.SavingEnd?
    ensures Shaped(cases, AfterSave(p)) && LoopOk(cases, AfterSave(p), everCancelled)
  {
  }

  lemma {:induction false} SavedSessionOk(cases: seq<Case>, j: Journal, p: Proc, files: Files)
    requires Shaped(cases, p) && Ahead(j, p.mem) && Saving(p.pc) && !p.pc.SavingEnd?
    requires SessionOk(j, p, files) && AttemptOk(cases, j, p, files) && Shaped(cases, AfterSave(p))
    ensures Ahead(p.mem, p.mem)
    ensures SessionOk(p.mem, AfterSave(p), files) && AttemptOk(cases, p.mem, AfterSave(p), files)
  {
  }

  lemma {:induction false} SavedProcOk(cases: seq<Case>, j: Journal, p: Proc, files: Files, everCancelled: bool)
    requires ProcOk(cases, j, p, files, everCancelled) && Saving(p.pc) && !p.pc.SavingEnd?
    ensures ProcOk(cases, p.mem, AfterSave(p), files, everCancelled)
  {
    SavedLoopOk(cases, p, everCancelled);
    SavedSessionOk(cases, j, p, files);
    assert AfterSave(p).mem == p.mem;
  }

  lemma {:induction false} FailsProcOk(cases: seq<Case>, j: Journal, p: Proc, files: Files, everCancelled: bool)
    requires ProcOk(cases, j, p, files, everCancelled) && !p.pc.Opening? && !p.pc.SavingEnd?
    ensures ProcOk(cases, j, Fails(p), files, everCancelled)
  {
  }

  lemma {:induction false} FailsAfterSaveOk(cases: seq<Case>, j: Journal, p: Proc, files: Files, everCancelled: bool)
    requires ProcOk(cases, j, p, files, everCancelled) && !p.pc.Opening? && !p.pc.SavingEnd?
    ensures ProcOk(cases, p.mem, Fails(p), files, everCancelled)
  {
    assert Ahead(p.mem, p.mem);
  }

  lemma {:induction false} SaveKeeps(cases: seq<Case>, s: State, o: Saved)
    requires Inv(cases, s) && Enabled(cases, s, Save(o))
    ensures Inv(cases, AfterSaving(s, s.proc.value, o))
  {
    var j, p := s.disk.journal.value, s.proc.value;
    MemIsOk(cases, j, p, s.disk.files, s.everCancelled);
    if !p.pc.SavingEnd? {
      SavedProcOk(cases, j, p, s.disk.files, s.everCancelled);
      FailsProcOk(cases, j, p, s.disk.files, s.everCancelled);
      FailsAfterSaveOk(cases, j, p, s.disk.files, s.everCancelled);
    }
  }

  // Starting the next attempt of an unfinished case.
  lemma {:induction false} AttemptProcOk(cases: seq<Case>, j: Journal, p: Proc, files: Files, everCancelled: bool)
    requires ProcOk(cases, j, p, files, everCancelled) && NamesCovered(j, files)
    requires p.pc.AtCase? && p.pc.i < |cases| && !Done(p.mem.cases[cases[p.pc.i]]) && !p.cancelled
    ensures ProcOk(cases, j, AfterHead(cases, p), files, everCancelled)
  {
    var c, q := cases[p.pc.i], AfterHead(cases, p);
    assert q.mem.cases.Keys == p.mem.cases.Keys;
    assert Capture(c, q.mem.cases[c].attempt) !in files;
    forall k | 0 <= k < p.pc.i ensures Done(q.mem.cases[cases[k]]) {
      assert Done(p.mem.cases[cases[k]]);
    }
  }

  lemma {:induction false} HeadLoopOk(cases: seq<Case>, p: Proc, everCancelled: bool)
    requires Shaped(cases, p) && LoopOk(cases, p, everCancelled) && p.pc.AtCase?
    requires p.pc.i == |cases| || Done(p.mem.cases[cases[p.pc.i]])
    ensures Shaped(cases, AfterHead(cases, p)) && LoopOk(cases, AfterHead(cases, p), everCancelled)
  {
  }

  lemma {:induction false} HeadProcOk(cases: seq<Case>, j: Journal, p: Proc, files: Files, everCancelled: bool)
    requires ProcOk(cases, j, p, files, everCancelled) && p.pc.AtCase?
    requires p.pc.i == |cases| || Done(p.mem.cases[cases[p.pc.i]])
    ensures ProcOk(cases, j, AfterHead(cases, p), files, everCancelled)
  {
    HeadLoopOk(cases, p, everCancelled);
    assert AfterHead(cases, p).mem == p.mem;
  }

  lemma {:induction false} HeadKeeps(cases: seq<Case>, s: State)
    requires Inv(cases, s) && Enabled(cases, s, NextCase)
    ensures Inv(cases, WithProc(s, AfterHead(cases, s.proc.value)))
  {
    var j, p := s.disk.journal.value, s.proc.value;
    if p.pc.i == |cases| || Done(p.mem.cases[cases[p.pc.i]]) {
      HeadProcOk(cases, j, p, s.disk.files, s.everCancelled);
    } else if p.cancelled {
      FailsProcOk(cases, j, p, s.disk.files, s.everCancelled);
    } else {
      AttemptProcOk(cases, j, p, s.disk.files, s.everCancelled);
    }
  }

  lemma {:induction false} BackedStays(j: Journal, files: Files, n: Name, x: Content)
    requires DoneBacked(j, files) && n !in files
    ensures DoneBacked(j, files[n := x])
  {
    forall c | c in j.cases && Done(j.cases[c]) ensures Backed(c, j.cases[c], files[n := x]) {
      assert Backed(c, j.cases[c], files);
    }
  }

  // Publishing a name that the journal on disk already covers.
  lemma {:induction false} PublishKeepsDisk(cases: seq<Case>, disk: Disk, n: Name, x: Content, everCancelled: bool)
    requires DiskOk(cases, disk, everCancelled) && disk.journal.Some?
    requires n !in disk.files && NamesCovered(disk.journal.value, map[n := x])
    ensures DiskOk(cases, disk.(files := disk.files[n := x]), everCancelled)
  {
    var j := disk.journal.value;
    assert n in map[n := x];
    assert NamesCovered(j, disk.files[n := x]);
    BackedStays(j, disk.files, n, x);
  }

  lemma {:induction false} ManifestProcOk(cases: seq<Case>, j: Journal, p: Proc, files: Files, everCancelled: bool)
    requires ProcOk(cases, j, p, files, everCancelled) && p.pc.LinkingManifest?
    ensures ProcOk(cases, j, AfterLink(cases, p), files[Manifest(p.session) := Metadata], everCancelled)
  {
    BackedStays(p.mem, files, Manifest(p.session), Metadata);
  }

  lemma {:induction false} CaptureLoopOk(cases: seq<Case>, p: Proc, everCancelled: bool)
    requires Shaped(cases, p) && LoopOk(cases, p, everCancelled) && p.pc.LinkingCapture? && !p.slipped
    requires p.mem.cases[cases[p.pc.i]].status == Running
    ensures Shaped(cases, AfterLink(cases, p)) && LoopOk(cases, AfterLink(cases, p), everCancelled)
  {
    var i, q := p.pc.i, AfterLink(cases, p);
    assert q.mem.cases.Keys == p.mem.cases.Keys;
    if q.slipped {
      assert !Done(q.mem.cases[cases[i]]);
    } else {
      forall k | 0 <= k < i ensures Done(q.mem.cases[cases[k]]) {
        assert Done(p.mem.cases[cases[k]]);
      }
    }
  }

  lemma {:induction false} CaptureIsBacked(cases: seq<Case>, p: Proc, files: Files)
    requires Shaped(cases, p) && DoneBacked(p.mem, files) && p.pc.LinkingCapture? && Target(cases, p) !in files
    requires IsDone(p.pc.o.status) ==> Validated(p.pc.o.report, cases[p.pc.i].repetitions)
    ensures DoneBacked(AfterLink(cases, p).mem, files[Target(cases, p) := ContentOf(p)])
  {
    BackedStays(p.mem, files, Target(cases, p), ContentOf(p));
  }

  lemma {:induction false} CaptureProcOk(cases: seq<Case>, j: Journal, p: Proc, files: Files, everCancelled: bool)
    requires ProcOk(cases, j, p, files, everCancelled) && p.pc.LinkingCapture?
    ensures ProcOk(cases, j, AfterLink(cases, p), files[Target(cases, p) := ContentOf(p)], everCancelled)
  {
    CaptureLoopOk(cases, p, everCancelled);
    CaptureIsBacked(cases, p, files);
    assert AfterLink(cases, p).mem.cases.Keys == p.mem.cases.Keys;
    assert !Done(j.cases[cases[p.pc.i]]);
  }

  lemma {:induction false} LinkKeeps(cases: seq<Case>, s: State, ok: bool)
    requires Inv(cases, s) && Enabled(cases, s, Link(ok))
    ensures Inv(cases, Next(cases, s, Link(ok)))
  {
    var j, p := s.disk.journal.value, s.proc.value;
    if ok {
      PublishKeepsDisk(cases, s.disk, Target(cases, p), ContentOf(p), s.everCancelled);
      if p.pc.LinkingManifest? {
        ManifestProcOk(cases, j, p, s.disk.files, s.everCancelled);
      } else {
        CaptureProcOk(cases, j, p, s.disk.files, s.everCancelled);
      }
    } else {
      FailsProcOk(cases, j, p, s.disk.files, s.everCancelled);
    }
  }

  lemma {:induction false} MeasureKeeps(cases: seq<Case>, s: State, m: Measurement)
    requires Inv(cases, s) && Enabled(cases, s, Measure(m))
    ensures Inv(cases, Next(cases, s, Measure(m)))
  {
    var p := s.proc.value;
    ClassifyIsExact(m, cases[p.pc.i].repetitions, p.cancelled);
  }

  lemma {:induction false} EndKeeps(cases: seq<Case>, s: State, linked: bool, clean: bool)
    requires Inv(cases, s) && Enabled(cases, s, End(linked, clean))
    ensures Inv(cases, Next(cases, s, End(linked, clean)))
  {
    var n := Resources(s.proc.value.session);
    if linked {
      PublishKeepsDisk(cases, s.disk, n, Metadata, s.everCancelled);
      BackedStays(s.proc.value.mem, s.disk.files, n, Metadata);
    }
  }

  lemma {:induction false} StopKeeps(cases: seq<Case>, s: State, step: Step)
    requires Inv(cases, s) && Enabled(cases, s, step)
    requires step.GiveUp? || step.IndexFails? || step.Cancel? || step.Crash?
    ensures Inv(cases, Next(cases, s, step))
  {
  }

  lemma {:induction false} StepKeepsInv(cases: seq<Case>, s: State, step: Step)
    requires Inv(cases, s) && Enabled(cases, s, step)
    ensures Inv(cases, Next(cases, s, step))
  {
    match step
    case Create(_) => OpenKeeps(cases, s, step);
    case Resume => OpenKeeps(cases, s, step);
    case Bind => BindKeeps(cases, s);
    case Save(o) => SaveKeeps(cases, s, o);
    case Link(ok) => LinkKeeps(cases, s, ok);
    case NextCase => HeadKeeps(cases, s);
    case Measure(m) => MeasureKeeps(cases, s, m);
    case End(linked, clean) => EndKeeps(cases, s, linked, clean);
    case _ => StopKeeps(cases, s, step);
  }

  lemma {:induction false} RunInv(cases: seq<Case>, steps: seq<Step>)
    requires Run(cases, Init(), steps).Some?
    ensures Inv(cases, Run(cases, Init(), steps).value)
    decreases |steps|
  {
    if |steps| > 0 {
      var init := steps[..|steps| - 1];
      RunInv(cases, init);
      StepKeepsInv(cases, Run(cases, Init(), init).value, steps[|steps| - 1]);
    }
  }

  // ----- main results -----

  // Across any sequence of processes, failures and crashes a name about to be
  // published is new, so publishing never has to refuse and nothing is ever
  // written twice.
  lemma {:induction false} NamesAreFresh(cases: seq<Case>, steps: seq<Step>)
    requires Run(cases, Init(), steps).Some? && Run(cases, Init(), steps).value.proc.Some?
    ensures var s := Run(cases, Init(), steps).value;
            var p := s.proc.value;
            && Shaped(cases, p)
            && (Linking(p.pc) ==> Target(cases, p) !in s.disk.files && Enabled(cases, s, Link(true)))
            && (p.pc.Ending? && p.sampling ==> Resources(p.session) !in s.disk.files)
  {
    RunInv(cases, steps);
  }

  // Finished cases are kept by a later journal.
  ghost predicate DoneKept(old_: Option<Journal>, new_: Option<Journal>) {
    old_.Some? ==>
      && new_.Some?
      && forall c :: c in old_.value.cases && Done(old_.value.cases[c]) ==>
           c in new_.value.cases && new_.value.cases[c] == old_.value.cases[c]
  }

  ghost predicate FilesKept(old_: Files, new_: Files) {
    forall n :: n in old_ ==> n in new_ && new_[n] == old_[n]
  }

  lemma {:induction false} StepKeepsDone(cases: seq<Case>, s: State, step: Step)
    requires Inv(cases, s) && Enabled(cases, s, step)
    ensures DoneKept(s.disk.journal, Next(cases, s, step).disk.journal)
    ensures FilesKept(s.disk.files, Next(cases, s, step).disk.files)
  {
    if step.Save? {
      assert AfterSaving(s, s.proc.value, step.o) == Next(cases, s, step);
    }
  }

  // The progress of a finished case is the same in every later journal, and
  // no published artifact is ever changed or removed.
  lemma {:induction false} DoneIsForever(cases: seq<Case>, steps: seq<Step>, n: nat)
    requires Run(cases, Init(), steps).Some? && n <= |steps|
    ensures Run(cases, Init(), steps[..n]).Some?
    ensures var s, t := Run(cases, Init(), steps[..n]).value, Run(cases, Init(), steps).value;
            DoneKept(s.disk.journal, t.disk.journal) && FilesKept(s.disk.files, t.disk.files)
    decreases |steps|
  {
    if n == |steps| {
      assert steps[..n] == steps;
    } else {
      var init := steps[..|steps| - 1];
      DoneIsForever(cases, init, n);
      assert init[..n] == steps[..n];
      RunInv(cases, init);
      StepKeepsDone(cases, Run(cases, Init(), init).value, steps[|steps| - 1]);
    }
  }

  // A case journaled as complete or limited, whatever was cancelled: its
  // capture is there and holds every repetition, correct and once.
  lemma {:induction false} FinishedIsValidated(cases: seq<Case>, steps: seq<Step>, c: Case)
    requires Run(cases, Init(), steps).Some?
    requires var j := Run(cases, Init(), steps).value.disk.journal; j.Some? && c in j.value.cases && Done(j.value.cases[c])
    ensures var d := Run(cases, Init(), steps).value.disk;
            var n := Capture(c, d.journal.value.cases[c].attempt);
            n in d.files && d.files[n].Captured? && Validated(d.files[n].report, c.repetitions)
  {
    RunInv(cases, steps);
    var d := Run(cases, Init(), steps).value.disk;
    assert Backed(c, d.journal.value.cases[c], d.files);
  }

  // A journal that says complete, in a study that was never cancelled: every
  // case is finished and its capture holds all its repetitions.
  lemma {:induction false} CompleteMeansDone(cases: seq<Case>, steps: seq<Step>, i: nat)
    requires Run(cases, Init(), steps).Some? && i < |cases|
    requires var s := Run(cases, Init(), steps).value;
             s.disk.journal.Some? && s.disk.journal.value.status == StudyComplete && !s.everCancelled
    ensures var d := Run(cases, Init(), steps).value.disk;
            && cases[i] in d.journal.value.cases && Done(d.journal.value.cases[cases[i]])
            && var n := Capture(cases[i], d.journal.value.cases[cases[i]].attempt);
            n in d.files && d.files[n].Captured? && Validated(d.files[n].report, cases[i].repetitions)
  {
    RunInv(cases, steps);
    FinishedIsValidated(cases, steps, cases[i]);
  }

  // ----- with cancellation -----

  // The last thing that happened, apart from further cancellations: a case was
  // measured while the study was cancelled, and only its observations failed.
  ghost predicate ObservedTooLate(cases: seq<Case>, steps: seq<Step>)
    requires Run(cases, Init(), steps).Some?
  {
    |steps| > 0 &&
    var init := steps[..|steps| - 1];
    match steps[|steps| - 1]
    case Measure(m) =>
      var p := Run(cases, Init(), init).value.proc.value;
      p.cancelled && ObservationLimited(m, cases[p.pc.i].repetitions)
    case Cancel => ObservedTooLate(cases, init)
    case _ => false
  }

  // The latest process published the capture of such a case.
  ghost predicate LeftACase(cases: seq<Case>, steps: seq<Step>)
    requires Run(cases, Init(), steps).Some?
  {
    |steps| > 0 &&
    var init := steps[..|steps| - 1];
    match steps[|steps| - 1]
    case Create(_) => false
    case Resume => false
    case Link(ok) => LeftACase(cases, init) || (ok && ObservedTooLate(cases, init))
    case _ => LeftACase(cases, init)
  }

  lemma {:induction false} SlipStep(cases: seq<Case>, s: State, step: Step)
    requires Enabled(cases, s, step) && !step.Create? && !step.Resume? && Next(cases, s, step).proc.Some?
    ensures s.proc.Some?
    ensures var p, q := s.proc.value, Next(cases, s, step).proc.value;
            q.slipped <==> p.slipped || (step == Link(true) && LeavingCase(p))
    ensures var p, q := s.proc.value, Next(cases, s, step).proc.value;
            LeavingCase(q) <==>
            if step.Measure? then p.cancelled && ObservationLimited(step.m, cases[p.pc.i].repetitions)
            else step.Cancel? && LeavingCase(p)
  {
    var p := s.proc.value;
    if step.Measure? {
      ClassifyIsExact(step.m, cases[p.pc.i].repetitions, p.cancelled);
    }
  }

  predicate LeavingCase(p: Proc) {
    p.pc.LinkingCapture? && LeavesIncomplete(p.pc.o)
  }

  lemma {:induction false} SlippedIsLeft(cases: seq<Case>, steps: seq<Step>)
    requires Run(cases, Init(), steps).Some? && Run(cases, Init(), steps).value.proc.Some?
    ensures var p := Run(cases, Init(), steps).value.proc.value;
            (p.slipped <==> LeftACase(cases, steps)) && (LeavingCase(p) <==> ObservedTooLate(cases, steps))
    decreases |steps|
  {
    var init, step := steps[..|steps| - 1], steps[|steps| - 1];
    if !step.Create? && !step.Resume? {
      SlipStep(cases, Run(cases, Init(), init).value, step);
      SlippedIsLeft(cases, init);
    }
  }

  // A process about to journal "complete" has every case done exactly when it
  // did not leave a case whose observations failed after a cancellation.
  lemma {:induction false} CompleteIsExact(cases: seq<Case>, steps: seq<Step>)
    requires Run(cases, Init(), steps).Some? && Run(cases, Init(), steps).value.proc.Some?
    requires var p := Run(cases, Init(), steps).value.proc.value; p.pc.SavingEnd? && p.mem.status == StudyComplete
    ensures AllDone(Run(cases, Init(), steps).value.proc.value.mem, cases) <==> !LeftACase(cases, steps)
  {
    RunInv(cases, steps);
    SlippedIsLeft(cases, steps);
  }

  predicate Writes(step: Step) {
    step.Save? && !step.o.NotSaved?
  }

  lemma {:induction false} WrittenIsMemory(cases: seq<Case>, s: State, step: Step)
    requires Inv(cases, s) && Enabled(cases, s, step) && Writes(step)
    requires var j := Next(cases, s, step).disk.journal; j.Some? && j.value.status == StudyComplete
    ensures s.proc.Some? && s.proc.value.pc.SavingEnd? && Next(cases, s, step).disk.journal == Some(s.proc.value.mem)
  {
    assert Next(cases, s, step) == AfterSaving(s, s.proc.value, step.o);
  }

  lemma {:induction false} NoWriteKeeps(cases: seq<Case>, s: State, step: Step)
    requires Enabled(cases, s, step) && !Writes(step)
    requires var j := Next(cases, s, step).disk.journal; j.Some? && j.value.status == StudyComplete
    ensures s.disk.journal == Next(cases, s, step).disk.journal
  {
  }

  ghost predicate LastWrite(steps: seq<Step>, n: nat) {
    n < |steps| && Writes(steps[n]) && forall k :: n < k < |steps| ==> !Writes(steps[k])
  }

  lemma {:induction false} StillLast(steps: seq<Step>, n: nat)
    requires |steps| > 0 && LastWrite(steps[..|steps| - 1], n) && !Writes(steps[|steps| - 1])
    ensures LastWrite(steps, n)
  {
    var init := steps[..|steps| - 1];
    assert steps[n] == init[n];
    forall k | n < k < |steps| ensures !Writes(steps[k]) {
      assert k < |init| ==> steps[k] == init[k];
    }
  }

  // A journal that says complete was written by a process at its end.
  lemma {:induction false} LastWriter(cases: seq<Case>, steps: seq<Step>) returns (n: nat)
    requires Run(cases, Init(), steps).Some?
    requires var j := Run(cases, Init(), steps).value.disk.journal; j.Some? && j.value.status == StudyComplete
    ensures LastWrite(steps, n)
    ensures Run(cases, Init(), steps[..n]).Some? && Run(cases, Init(), steps[..n]).value.proc.Some?
    ensures var p := Run(cases, Init(), steps[..n]).value.proc.value;
            p.pc.SavingEnd? && Run(cases, Init(), steps).value.disk.journal == Some(p.mem)
    decreases |steps|
  {
    var init, step := steps[..|steps| - 1], steps[|steps| - 1];
    var s := Run(cases, Init(), init).value;
    if Writes(step) {
      n := |steps| - 1;
      RunInv(cases, init);
      WrittenIsMemory(cases, s, step);
    } else {
      NoWriteKeeps(cases, s, step);
      n := LastWriter(cases, init);
      assert init[..n] == steps[..n];
      StillLast(steps, n);
    }
  }

  // The same of the journal on disk: it is the one written last, and its
  // claim is right exactly when its writer left no such case.
  lemma {:induction false} CompleteOnDiskIsExact(cases: seq<Case>, steps: seq<Step>) returns (n: nat)
    requires Run(cases, Init(), steps).Some?
    requires var j := Run(cases, Init(), steps).value.disk.journal; j.Some? && j.value.status == StudyComplete
    ensures LastWrite(steps, n)
    ensures Run(cases, Init(), steps[..n]).Some?
    ensures AllDone(Run(cases, Init(), steps).value.disk.journal.value, cases) <==> !LeftACase(cases, steps[..n])
  {
    n := LastWriter(cases, steps);
    CompleteIsExact(cases, steps[..n]);
  }

  // ----- the cancellation that slips -----

  lemma {:induction false} Then(cases: seq<Case>, steps: seq<Step>, s: State, step: Step)
    requires Run(cases, Init(), steps) == Some(s) && Enabled(cases, s, step)
    ensures Run(cases, Init(), steps + [step]) == Some(Next(cases, s, step))
  {
    assert (steps + [step])[..|steps|] == steps;
  }

  // One correct repetition whose visibility could not be observed.
  function LateMeasurement(): Measurement {
    Measurement(Pipeline([Repetition(1, true, true, false)]), Some(Observation))
  }

  function Left(): Outcome {
    Outcome(LateMeasurement().report, Incomplete, false)
  }

  // What is published before the case, and after it.
  function StartFiles(): Files {
    map[Manifest(1) := Metadata]
  }

  function LateFiles(c: Case): Files {
    StartFiles()[Capture(c, 1) := Captured(LateMeasurement().report, Incomplete)]
  }

  lemma {:induction false} LateIsLimited()
    ensures ObservationLimited(LateMeasurement(), 1) && Classify(LateMeasurement(), 1, true) == Left()
  {
    var m := LateMeasurement();
    var es := EntriesOf(m.report);
    assert |es| == 1 && es[0] == Entry(Slot(NoWrite, 1), true);
    assert GoodOnce(es) && Slots(es) == {Slot(NoWrite, 1)} by {
      assert Slots(es[..0]) == {};
      assert Slots(es) == Slots(es[..0]) + {es[0].slot};
    }
    assert SlotsUpTo(false, 1) == {Slot(NoWrite, 1)};
    var errs := [m.error, None];
    JoinIsHarmless(errs);
    assert NonNil(errs) == [Observation] by {
      assert NonNil(errs[1..]) == NonNil(errs[1..][1..]) == [];
    }
  }

  function OneCase(c: Case, status: StudyStatus, sessions: nat, p: Progress): Journal {
    Journal(status, sessions, map[c := p])
  }

  // A study of one case up to its case loop.
  lemma {:induction false} StudyStarts(c: Case) returns (steps: seq<Step>)
    requires c.repetitions == 1
    ensures var j := OneCase(c, StudyRunning, 1, Progress(Pending, 0));
            Run([c], Init(), steps)
              == Some(State(Disk(Some(j), StartFiles()), Some(Proc(j, 1, AtCase(0), true, false, false, false)), false))
  {
    var cases := [c];
    var j0 := OneCase(c, Created, 0, Progress(Pending, 0));
    var j1 := OneCase(c, StudyRunning, 1, Progress(Pending, 0));
    assert Fresh(cases).cases == j0.cases;
    Then(cases, [], Init(), Create(SavedOk));
    var s1 := State(Disk(Some(j0), map[]), Some(Proc(j0, 1, Opening, false, false, false, false)), false);
    steps := [] + [Create(SavedOk)];
    Then(cases, steps, s1, Bind);
    var s2 := State(Disk(Some(j0), map[]), Some(Proc(j1, 1, SavingBound, false, false, false, false)), false);
    assert Next(cases, s1, Bind) == s2;
    steps := steps + [Bind];
    Then(cases, steps, s2, Save(SavedOk));
    var s3 := State(Disk(Some(j1), map[]), Some(Proc(j1, 1, LinkingManifest, false, false, false, false)), false);
    assert Next(cases, s2, Save(SavedOk)) == s3;
    steps := steps + [Save(SavedOk)];
    Then(cases, steps, s3, Link(true));
    var s4 := State(Disk(Some(j1), StartFiles()), Some(Proc(j1, 1, SavingManifest, false, false, false, false)), false);
    assert map[][Manifest(1) := Metadata] == StartFiles();
    assert Next(cases, s3, Link(true)) == s4;
    steps := steps + [Link(true)];
    Then(cases, steps, s4, Save(SavedOk));
    steps := steps + [Save(SavedOk)];
  }

  // The case is measured; meanwhile the study is cancelled, and the
  // observations of the case fail.
  lemma {:induction false} CaseIsCancelled(c: Case) returns (steps: seq<Step>)
    requires c.repetitions == 1
    ensures var j := OneCase(c, StudyRunning, 1, Progress(Running, 1));
            Run([c], Init(), steps)
              == Some(State(Disk(Some(j), StartFiles()),
                            Some(Proc(j, 1, LinkingCapture(0, Left()), true, false, true, false)), true))
  {
    var cases := [c];
    var j1 := OneCase(c, StudyRunning, 1, Progress(Pending, 0));
    var j2 := OneCase(c, StudyRunning, 1, Progress(Running, 1));
    var files := StartFiles();
    steps := StudyStarts(c);
    var s1 := State(Disk(Some(j1), files), Some(Proc(j1, 1, AtCase(0), true, false, false, false)), false);
    Then(cases, steps, s1, NextCase);
    var s2 := State(Disk(Some(j1), files), Some(Proc(j2, 1, SavingAttempt(0), true, false, false, false)), false);
    assert j1.cases[c := Progress(Running, 1)] == j2.cases;
    assert Next(cases, s1, NextCase) == s2;
    steps := steps + [NextCase];
    Then(cases, steps, s2, Save(SavedOk));
    var s3 := State(Disk(Some(j2), files), Some(Proc(j2, 1, Measuring(0), true, false, false, false)), false);
    assert Next(cases, s2, Save(SavedOk)) == s3;
    steps := steps + [Save(SavedOk)];
    Then(cases, steps, s3, Cancel);
    var s4 := State(Disk(Some(j2), files), Some(Proc(j2, 1, Measuring(0), true, false, true, false)), true);
    assert Next(cases, s3, Cancel) == s4;
    steps := steps + [Cancel];
    LateIsLimited();
    Then(cases, steps, s4, Measure(LateMeasurement()));
    steps := steps + [Measure(LateMeasurement())];
  }

  // Its capture is published with the case left incomplete, and saved.
  lemma {:induction false} CaseIsLeftIncomplete(c: Case) returns (steps: seq<Step>)
    requires c.repetitions == 1
    ensures var j := OneCase(c, StudyRunning, 1, Progress(Incomplete, 1));
            Run([c], Init(), steps)
              == Some(State(Disk(Some(j), LateFiles(c)), Some(Proc(j, 1, AtCase(1), true, false, true, true)), true))
  {
    var cases := [c];
    var j2 := OneCase(c, StudyRunning, 1, Progress(Running, 1));
    var j3 := OneCase(c, StudyRunning, 1, Progress(Incomplete, 1));
    var files, more := StartFiles(), LateFiles(c);
    steps := CaseIsCancelled(c);
    var s1 := State(Disk(Some(j2), files),
                    Some(Proc(j2, 1, LinkingCapture(0, Left()), true, false, true, false)), true);
    Then(cases, steps, s1, Link(true));
    var s2 := State(Disk(Some(j2), more), Some(Proc(j3, 1, SavingCase(0, Left()), true, false, true, true)), true);
    assert files[Capture(c, 1) := Captured(LateMeasurement().report, Incomplete)] == more;
    assert j2.cases[c := Progress(Incomplete, 1)] == j3.cases;
    assert Next(cases, s1, Link(true)) == s2;
    steps := steps + [Link(true)];
    Then(cases, steps, s2, Save(SavedOk));
    steps := steps + [Save(SavedOk)];
  }

  // Without the restriction to studies that were never cancelled the claim is
  // false: here the journal says complete and its only case is incomplete.
  lemma {:induction false} CancelledStudyCanClaimComplete(c: Case) returns (steps: seq<Step>)
    requires c.repetitions == 1
    ensures Run([c], Init(), steps).Some?
    ensures var d := Run([c], Init(), steps).value.disk;
            && d.journal.Some? && d.journal.value.status == StudyComplete
            && c in d.journal.value.cases && d.journal.value.cases[c].status == Incomplete && !AllDone(d.journal.value, [c])
  {
    var cases := [c];
    var j := OneCase(c, StudyRunning, 1, Progress(Incomplete, 1));
    var files := LateFiles(c);
    steps := CaseIsLeftIncomplete(c);
    var s1 := State(Disk(Some(j), files), Some(Proc(j, 1, AtCase(1), true, false, true, true)), true);
    Then(cases, steps, s1, NextCase);
    var s2 := State(Disk(Some(j), files), Some(Proc(j, 1, Ending, true, false, true, true)), true);
    assert Next(cases, s1, NextCase) == s2;
    steps := steps + [NextCase];
    Then(cases, steps, s2, End(true, true));
    var s3 := Next(cases, s2, End(true, true));
    steps := steps + [End(true, true)];
    Then(cases, steps, s3, Save(SavedOk));
    steps := steps + [Save(SavedOk)];
    assert cases[0] == c;
  }
}
