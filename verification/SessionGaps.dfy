/**
 Coverage gaps over whole sessions, told from the steps that meet them: which of them the final
 summary shows, which an interrupt hides, and what lies behind a pass that restores health.
 */
module SessionGaps {
  import opened Orders
  import opened Paths
  import DQ = DebounceQueue
  import opened WatchHealth
  import opened WatchSession
  import opened SessionHistory

  // ---------- where gaps are met ----------

  predicate FailsInspection(key: Key, fingerprint: Option<Fingerprint>, hash: Hash) {
    match hash
    case Hashed(_) => fingerprint.None?
    case TooLarge => true
    case NotHashed(code, absent) => IsGap(ScanIssue(key, code, absent), false)
  }

  /** What the interrupt cuts off includes a gap. */
  predicate CutsGap(s: Session, cut: Cut) {
    || HasGap(cut.walk, false) || cut.special > 0
    || (cut.path.Some? && !PassedOver(s) && GapAnswer(cut.path.value))
  }

  /** The step meets a coverage gap: a failed health check, a stopped ingest thread, an overflow, an
      unreadable, uninspected or too large file at the moment it is inspected, whatever else a walk
      or the scan of a path meets, an unfinished quarantine, or events left in the queue. */
  predicate GapStep(s: Session, step: Step) {
    match step
    case HealthProblem(_, _) => true
    case PipelineCheck => s.ingestFailed || s.m.q.overflowed
    case FinalCheck => s.ingestFailed || s.m.q.overflowed
    case Handle(answer) => !PassedOver(s) && GapAnswer(answer)
    case Visit(_, fingerprint) => s.pass.Some? && s.pass.value.metadataOnly && fingerprint.None?
    case Inspect(hash) =>
      s.pass.Some? && s.pass.value.awaiting.Some?
      && FailsInspection(s.pass.value.awaiting.value.0, s.pass.value.awaiting.value.1, hash)
    case FinishPass(walk, special, _, _, _) =>
      s.pass.Some? && (HasGap(walk, false) || special > 0 || Unfinished(ReportOf(s, step)))
    case Interrupt(cut) => CutsGap(s, cut)
    case JoinIngest(alive) => alive
    case BacklogCheck => Backlog(s.m)
    case _ => false
  }

  /** The gap is reported at the end of the pass that meets it. */
  predicate Deferred(step: Step) {
    step.Visit? || step.Inspect?
  }

  /** The running pass has met a gap that it has not reported yet. */
  predicate PassMet(pass: Option<Pass>) {
    pass.Some? && (HasGap(pass.value.issues, false) || pass.value.tooLarge > 0)
  }

  predicate EndsPass(step: Step) {
    step.FinishPass? || step.Interrupt?
  }

  /** The pass that is running comes to its own end before any interrupt. */
  predicate Reports(steps: seq<Step>) {
    steps != [] && (steps[0].FinishPass? || (!steps[0].Interrupt? && Reports(steps[1..])))
  }

  /** The gap met by step `i` is reported: at once, or because its pass comes to its own end. */
  predicate Reported(steps: seq<Step>, i: nat)
    requires i < |steps|
  {
    !steps[i].Interrupt? && (Deferred(steps[i]) ==> Reports(steps[i + 1..]))
  }

  /** The gap met by step `i` is cut off by an interrupt: that of the step itself, or the first thing
      that ends the pass that met it. */
  predicate CutOff(steps: seq<Step>, i: nat)
    requires i < |steps|
  {
    steps[i].Interrupt? || (Deferred(steps[i]) && Interrupts(steps[i + 1..]))
  }

  predicate Interrupts(steps: seq<Step>) {
    steps != [] && (steps[0].Interrupt? || (!steps[0].FinishPass? && Interrupts(steps[1..])))
  }

  lemma GapInEither(a: seq<ScanIssue>, b: seq<ScanIssue>)
    ensures HasGap(a + b, false) <==> HasGap(a, false) || HasGap(b, false)
  {
    assert forall i :: i in a + b <==> i in a || i in b;
    hide IsGap;
  }

  /** A pass raises the flag at its end exactly if it met a gap before or meets one then. */
  lemma PassRaises(s: Session, step: Step)
    requires s.pass.Some? && step.FinishPass?
    ensures RaisingStep(s, step) <==> PassMet(s.pass) || GapStep(s, step)
  {
    GapInEither(step.walk, s.pass.value.issues);
    hide HasGap;
    hide Unfinished;
  }

  lemma VisitMeets(s: Session, key: Key, fingerprint: Option<Fingerprint>)
    requires s.pass.Some?
    ensures PassMet(VisitFile(s, key, fingerprint).pass) <==>
            PassMet(s.pass) || GapStep(s, Visit(key, fingerprint))
  {
    VisitNotes(s, key, fingerprint);
    hide VisitFile;
    OneIssueMore(s.pass.value.issues, ScanIssue(key, FileFilterFailed, false));
    hide HasGap;
  }

  lemma VisitNotes(s: Session, key: Key, fingerprint: Option<Fingerprint>)
    requires s.pass.Some?
    ensures var n, p := VisitFile(s, key, fingerprint).pass, s.pass.value;
            && n.Some? && n.value.tooLarge == p.tooLarge
            && n.value.issues == (if p.metadataOnly && fingerprint.None?
                                  then p.issues + [ScanIssue(key, FileFilterFailed, false)] else p.issues)
  {
  }

  lemma OneIssueMore(issues: seq<ScanIssue>, i: ScanIssue)
    ensures HasGap(issues + [i], false) <==> HasGap(issues, false) || IsGap(i, false)
  {
    assert forall k :: k in issues + [i] <==> k in issues || k == i;
    hide IsGap;
  }

  lemma InspectMeets(s: Session, hash: Hash)
    requires s.pass.Some? && s.pass.value.awaiting.Some?
    ensures PassMet(InspectFile(s, hash).pass) <==> PassMet(s.pass) || GapStep(s, Inspect(hash))
  {
    hide InspectFile;
    hide HasGap;
    var (key, fingerprint) := s.pass.value.awaiting.value;
    InspectNotes(s, hash, key, fingerprint);
    assert IsGap(ScanIssue(key, FileObserverFailed, false), false);
    hide IsGap;
    match hash
    case Hashed(_) => OneIssueMore(s.pass.value.issues, ScanIssue(key, FileObserverFailed, false));
    case TooLarge =>
    case NotHashed(code, absent) => OneIssueMore(s.pass.value.issues, ScanIssue(key, code, absent));
  }

  lemma InspectNotes(s: Session, hash: Hash, key: Key, fingerprint: Option<Fingerprint>)
    requires s.pass.Some? && s.pass.value.awaiting == Some((key, fingerprint))
    ensures var n, p := InspectFile(s, hash).pass, s.pass.value;
            && n.Some?
            && n.value.tooLarge == p.tooLarge + (if hash.TooLarge? then 1 else 0)
            && n.value.issues ==
               (if hash.NotHashed? then p.issues + [ScanIssue(key, hash.code, hash.absent)]
                else if hash.Hashed? && fingerprint.None? then p.issues + [ScanIssue(key, FileObserverFailed, false)]
                else p.issues)
  {
  }

  /** One step of the gaps a pass has met, and of whether there is one. */
  lemma StepMeets(cfg: DQ.Config, s: Session, step: Step)
    requires Enabled(s, step)
    ensures var n := Next(cfg, s, step);
            && (Deferred(step) ==> s.pass.Some? && n.pass.Some?
                                   && (PassMet(n.pass) <==> PassMet(s.pass) || GapStep(s, step)))
            && (EndsPass(step) ==> n.pass.None?)
            && (!Deferred(step) && !EndsPass(step) ==> n.pass == s.pass || (step.StartPass? && !PassMet(n.pass)))
            && (step.FinishPass? ==> s.pass.Some?)
            && (!Deferred(step) && !EndsPass(step) ==> (GapStep(s, step) <==> RaisingStep(s, step)))
            && (step.StartPass? ==> s.pass.None? && n.pass.Some?)
            && (Deferred(step) || step.Interrupt? ==> !RaisingStep(s, step))
  {
    hide PassMet;
    hide GapStep;
    hide RaisingStep;
    StepKinds(s, step);
    match step
    case Visit(key, fingerprint) =>
      VisitMeets(s, key, fingerprint);
      VisitFrame(s, key, fingerprint);
      hide VisitFile;
    case Inspect(hash) =>
      InspectMeets(s, hash);
      InspectFrame(s, hash);
      hide InspectFile;
    case StartPass(full, metadataOnly) => BeginsClean(s, full, metadataOnly);
    case _ => PassUntouched(cfg, s, step); hide Next;
  }

  lemma BeginsClean(s: Session, full: bool, metadataOnly: bool)
    ensures Begin(s, full, metadataOnly).pass.Some? && !PassMet(Begin(s, full, metadataOnly).pass)
  {
  }

  lemma PassUntouched(cfg: DQ.Config, s: Session, step: Step)
    requires Enabled(s, step) && !Deferred(step) && !step.StartPass?
    ensures var n := Next(cfg, s, step);
            if EndsPass(step) then n.pass.None? && (step.FinishPass? ==> s.pass.Some?) else n.pass == s.pass
  {
    hide DQ.Next;
    hide RaiseIssue;
    hide ScanPending;
    hide Emit;
  }

  /** Which steps raise the flag for a gap at once. */
  lemma StepKinds(s: Session, step: Step)
    ensures !Deferred(step) && !EndsPass(step) ==> (GapStep(s, step) <==> RaisingStep(s, step))
    ensures Deferred(step) || step.Interrupt? ==> !RaisingStep(s, step)
  {
    hide GapAnswer;
  }

  /** The historical flag after any run: every gap is in it that is reported, or that the pass running
      at the start had met and comes to report. */
  lemma {:induction false} GapsOverRun(cfg: DQ.Config, s: Session, steps: seq<Step>)
    requires Inv(cfg, s) && Feasible(cfg, s, steps)
    ensures Run(cfg, s, steps).h.historical <==>
            s.h.historical || (PassMet(s.pass) && Reports(steps)) || AnyReported(cfg, s, steps)
    decreases |steps|
  {
    if steps != [] {
      var step := steps[0];
      StepShows(cfg, s, step);
      StepMeets(cfg, s, step);
      if step.FinishPass? { PassRaises(s, step); }
      hide Next;
      hide Inv;
      GapsOverRun(cfg, Next(cfg, s, step), steps[1..]);
      ReportedFromFirst(cfg, s, steps);
      assert steps[0 + 1..] == steps[1..];
      hide AnyReported;
    }
    hide GapStep;
    hide RaisingStep;
    hide PassMet;
    hide Enabled;
    hide TellStep;
    hide LeavesInventorying;
  }

  /** Some step of the run meets a gap that is reported. */
  ghost predicate AnyReported(cfg: DQ.Config, s: Session, steps: seq<Step>)
    requires Feasible(cfg, s, steps)
  {
    exists i :: 0 <= i < |steps| && GapStep(StateAt(cfg, s, steps, i), steps[i]) && Reported(steps, i)
  }

  lemma ReportedFromFirst(cfg: DQ.Config, s: Session, steps: seq<Step>)
    requires Feasible(cfg, s, steps) && steps != []
    ensures AnyReported(cfg, s, steps) <==>
            (GapStep(s, steps[0]) && Reported(steps, 0)) || AnyReported(cfg, Next(cfg, s, steps[0]), steps[1..])
  {
    hide Next;
    hide Enabled;
    hide GapStep;
    var n, rest := Next(cfg, s, steps[0]), steps[1..];
    forall i | 0 <= i < |rest| ensures Reported(rest, i) <==> Reported(steps, i + 1) {
      assert rest[i + 1..] == steps[i + 1 + 1..];
    }
    hide Reported;
    if AnyReported(cfg, s, steps) && !(GapStep(s, steps[0]) && Reported(steps, 0)) {
      var i :| 0 <= i < |steps| && GapStep(StateAt(cfg, s, steps, i), steps[i]) && Reported(steps, i);
      assert GapStep(StateAt(cfg, n, rest, i - 1), rest[i - 1]) && Reported(rest, i - 1);
    }
    if AnyReported(cfg, n, rest) {
      var i :| 0 <= i < |rest| && GapStep(StateAt(cfg, n, rest, i), rest[i]) && Reported(rest, i);
      assert GapStep(StateAt(cfg, s, steps, i + 1), steps[i + 1]) && Reported(steps, i + 1);
    } else if GapStep(s, steps[0]) && Reported(steps, 0) {
      assert GapStep(StateAt(cfg, s, steps, 0), steps[0]);
    }
  }

  // ---------- main results ----------

  /** What the summary and the flag say of any run: the summary shows a gap exactly when some step met
      one that was reported, at once or at the end of its pass; the flag is up exactly when it was
      raised since health was last restored. */
  lemma SummaryNamesReportedGaps(cfg: DQ.Config, clock: DQ.Time, steps: seq<Step>)
    requires TotalOrder(cfg.le) && cfg.maxEvents >= 1 && Feasible(cfg, Start(clock), steps)
    ensures var n := Run(cfg, Start(clock), steps);
            && (SummaryIncomplete(n) <==> AnyReported(cfg, Start(clock), steps))
            && (n.h.incomplete <==> SinceRestore(cfg, Start(clock), steps, RaisingStep))
  {
    hide *;
    StartIsSound(cfg, clock);
    FreshStart(clock);
    FlagsOverRun(cfg, Start(clock), steps);
    GapsOverRun(cfg, Start(clock), steps);
    EveryRunKeepsInv(cfg, Start(clock), steps);
    SummaryFlags(cfg, Run(cfg, Start(clock), steps));
  }

  lemma SummaryFlags(cfg: DQ.Config, s: Session)
    requires Inv(cfg, s)
    ensures SummaryIncomplete(s) <==> s.h.historical
  {
    hide QueueInv;
    SessionHealth(s);
    hide SessionInv;
  }

  /** The final summary of a session is incomplete exactly when some step met a coverage gap that no
      interrupt cut off: an interrupt hides what it cuts and what the pass it ends had met. */
  lemma SummaryNamesEveryGap(cfg: DQ.Config, clock: DQ.Time, steps: seq<Step>)
    requires TotalOrder(cfg.le) && cfg.maxEvents >= 1 && Feasible(cfg, Start(clock), steps)
    requires Run(cfg, Start(clock), steps).phase == Ended
    ensures SummaryIncomplete(Run(cfg, Start(clock), steps)) <==>
            exists i :: 0 <= i < |steps| && GapStep(StateAt(cfg, Start(clock), steps, i), steps[i])
                        && !CutOff(steps, i)
  {
    StartIsSound(cfg, clock);
    SummaryNamesReportedGaps(cfg, clock, steps);
    EveryRunKeepsInv(cfg, Start(clock), steps);
    EndedHasNoPass(cfg, Run(cfg, Start(clock), steps));
    forall i | 0 <= i < |steps| ensures Reported(steps, i) <==> !CutOff(steps, i) {
      ReportedOrCut(cfg, Start(clock), steps, i);
    }
    hide Reported;
    hide CutOff;
    hide Run;
    hide StateAt;
    hide Inv;
    hide GapStep;
  }

  lemma EndedHasNoPass(cfg: DQ.Config, s: Session)
    requires Inv(cfg, s) && s.phase == Ended
    ensures s.pass.None?
  {
    hide QueueInv;
    QuietOutside(s);
    hide SessionInv;
  }

  /** Where no pass is left running, what a pass met is reported or cut off. */
  lemma {:induction false} ReportsOrInterrupts(cfg: DQ.Config, s: Session, steps: seq<Step>)
    requires Feasible(cfg, s, steps) && s.pass.Some? && Run(cfg, s, steps).pass.None?
    ensures Reports(steps) <==> !Interrupts(steps)
    decreases |steps|
  {
    if steps != [] {
      StepMeets(cfg, s, steps[0]);
      hide Next;
      hide Enabled;
      hide PassMet;
      hide RaisingStep;
      hide GapStep;
      if !EndsPass(steps[0]) {
        ReportsOrInterrupts(cfg, Next(cfg, s, steps[0]), steps[1..]);
      }
    }
  }

  lemma {:induction false} ReportedOrCut(cfg: DQ.Config, s: Session, steps: seq<Step>, i: nat)
    requires Feasible(cfg, s, steps) && i < |steps| && Run(cfg, s, steps).pass.None?
    ensures Reported(steps, i) <==> !CutOff(steps, i)
    decreases i
  {
    var n, rest := Next(cfg, s, steps[0]), steps[1..];
    if i == 0 {
      StepMeets(cfg, s, steps[0]);
      hide Next;
      hide Enabled;
      hide PassMet;
      hide RaisingStep;
      hide GapStep;
      assert steps[0 + 1..] == rest;
      if Deferred(steps[0]) {
        ReportsOrInterrupts(cfg, n, rest);
      }
    } else {
      hide Next;
      hide Enabled;
      ReportedOrCut(cfg, n, rest, i - 1);
      assert rest[i - 1 + 1..] == steps[i + 1..];
    }
  }

  /** Without an interrupt the summary is incomplete exactly when some step met a gap. */
  lemma UninterruptedSummaryIsExact(cfg: DQ.Config, clock: DQ.Time, steps: seq<Step>)
    requires TotalOrder(cfg.le) && cfg.maxEvents >= 1 && Feasible(cfg, Start(clock), steps)
    requires Run(cfg, Start(clock), steps).phase == Ended
    requires forall step :: step in steps ==> !step.Interrupt?
    ensures SummaryIncomplete(Run(cfg, Start(clock), steps)) <==> Ever(cfg, Start(clock), steps, GapStep)
  {
    SummaryNamesEveryGap(cfg, clock, steps);
    forall i | 0 <= i < |steps| ensures !CutOff(steps, i) {
      NoInterrupts(steps[i + 1..]);
    }
    hide Run;
    hide StateAt;
    hide GapStep;
    hide CutOff;
  }

  lemma {:induction false} NoInterrupts(steps: seq<Step>)
    requires forall step :: step in steps ==> !step.Interrupt?
    ensures !Interrupts(steps)
  {
    if steps != [] {
      NoInterrupts(steps[1..]);
    }
  }

  /** A session in which a pass meets an unreadable file and is then interrupted. */
  function InterruptedSession(key: Key, f: Fingerprint): seq<Step> {
    [StartPass(false, false), Visit(key, Some(f)), Inspect(NotHashed(FileReadFailed, false)),
     Interrupt(Cut([], 0, None)), StopObserver, JoinIngest(false), FinalIngest, FinalCheck, BacklogCheck, Finish]
  }

  /** The states of such a session from the interrupt on. */
  ghost function Stopped(s: Session, phase: Phase): Session {
    s.(phase := phase)
  }

  /** An interrupt can hide a gap: the session meets an unreadable file, and its summary is complete. */
  lemma InterruptHidesGap(cfg: DQ.Config, clock: DQ.Time, key: Key, f: Fingerprint)
    ensures var steps := InterruptedSession(key, f);
            && Feasible(cfg, Start(clock), steps)
            && GapStep(StateAt(cfg, Start(clock), steps, 2), steps[2]) && CutOff(steps, 2)
            && var n := Run(cfg, Start(clock), steps);
               n.phase == Ended && n.interrupted && !SummaryIncomplete(n)
  {
    hide *;
    var steps := InterruptedSession(key, f);
    var s := Start(clock);
    FreshStart(clock);
    CutIsSecond(key, f);
    AwaitsFirst(s, key, f);
    var b := VisitFile(Begin(s, false, false), key, Some(f));
    var c := InspectFile(b, NotHashed(FileReadFailed, false));
    var d := c.(interrupted := true, pass := None, todo := []);
    WalkToGap(cfg, s, key, f);
    QuietAfterCut(cfg, d);
    FourStepsThen(cfg, s, Begin(s, false, false), b, c, d, steps);
  }

  lemma CutIsSecond(key: Key, f: Fingerprint)
    ensures var steps := InterruptedSession(key, f);
            && |steps| == 10 && steps[0] == StartPass(false, false) && steps[1] == Visit(key, Some(f))
            && steps[2] == Inspect(NotHashed(FileReadFailed, false)) && steps[3] == Interrupt(Cut([], 0, None))
            && CutOff(steps, 2) && steps[1..][1..][1..][1..] == ShutDown()
  {
    var steps := InterruptedSession(key, f);
    assert steps[2 + 1..][0].Interrupt?;
  }

  lemma FreshStart(clock: DQ.Time)
    ensures var s := Start(clock);
            && Idle(s) && s.h == FRESH && !Backlog(s.m) && !s.m.q.overflowed && !s.ingestFailed
            && !s.h.incomplete && !s.h.historical && !s.h.persistent && !PassMet(s.pass)
  {
  }

  lemma QuietAfterCut(cfg: DQ.Config, s: Session)
    requires Idle(s) && !Backlog(s.m) && !s.m.q.overflowed && !s.ingestFailed && s.interrupted
    requires !s.h.incomplete && !s.h.historical
    ensures Feasible(cfg, s, ShutDown())
    ensures var n := Run(cfg, s, ShutDown()); n.phase == Ended && n.interrupted && !SummaryIncomplete(n)
  {
    EndQuietly(cfg, s);
    hide Run;
    hide Feasible;
    hide ShutDown;
  }

  lemma FourStepsThen(cfg: DQ.Config, s: Session, a: Session, b: Session, c: Session, d: Session, steps: seq<Step>)
    requires |steps| >= 4
    requires Enabled(s, steps[0]) && Next(cfg, s, steps[0]) == a && Enabled(a, steps[1]) && Next(cfg, a, steps[1]) == b
    requires Enabled(b, steps[2]) && Next(cfg, b, steps[2]) == c && Enabled(c, steps[3]) && Next(cfg, c, steps[3]) == d
    requires Feasible(cfg, d, steps[1..][1..][1..][1..])
    ensures Feasible(cfg, s, steps) && Run(cfg, s, steps) == Run(cfg, d, steps[1..][1..][1..][1..])
    ensures StateAt(cfg, s, steps, 2) == b
  {
    hide Next;
    hide Enabled;
    var t1, t2, t3 := steps[1..], steps[1..][1..], steps[1..][1..][1..];
    assert Feasible(cfg, c, t3) && Run(cfg, c, t3) == Run(cfg, d, t3[1..]);
    assert Feasible(cfg, b, t2) && Run(cfg, b, t2) == Run(cfg, c, t3);
    assert Feasible(cfg, a, t1) && Run(cfg, a, t1) == Run(cfg, b, t2);
    assert StateAt(cfg, s, steps, 2) == StateAt(cfg, a, t1, 1) == StateAt(cfg, b, t2, 0) == b;
  }

  lemma AwaitsFirst(s: Session, key: Key, f: Fingerprint)
    requires s.h == FRESH
    ensures Begin(s, false, false).pass.Some?
    ensures var b := VisitFile(Begin(s, false, false), key, Some(f)).pass; b.Some? && b.value.awaiting.Some?
  {
  }

  function ShutDown(): seq<Step> {
    [StopObserver, JoinIngest(false), FinalIngest, FinalCheck, BacklogCheck, Finish]
  }

  lemma WalkToGap(cfg: DQ.Config, s: Session, key: Key, f: Fingerprint)
    requires Idle(s) && s.h == FRESH
    requires var b := VisitFile(Begin(s, false, false), key, Some(f)).pass; b.Some? && b.value.awaiting.Some?
    ensures var a := Begin(s, false, false);
            var b := VisitFile(a, key, Some(f));
            var hash := NotHashed(FileReadFailed, false);
            var c := InspectFile(b, hash);
            var d := c.(interrupted := true, pass := None, todo := []);
            && Enabled(s, StartPass(false, false)) && Next(cfg, s, StartPass(false, false)) == a
            && Enabled(a, Visit(key, Some(f))) && Next(cfg, a, Visit(key, Some(f))) == b
            && Enabled(b, Inspect(hash)) && Next(cfg, b, Inspect(hash)) == c && GapStep(b, Inspect(hash))
            && Enabled(c, Interrupt(Cut([], 0, None))) && Next(cfg, c, Interrupt(Cut([], 0, None))) == d
            && Idle(d) && d.m == s.m && d.ingestFailed == s.ingestFailed && d.interrupted
            && d.h.incomplete == s.h.incomplete && d.h.historical == s.h.historical
  {
  }

  /** The shutdown of an idle session with nothing queued raises nothing. */
  lemma EndQuietly(cfg: DQ.Config, s: Session)
    requires Idle(s) && s.m.q.raw == [] && s.m.q.pending == map[] && !s.m.q.overflowed && !s.ingestFailed
    ensures Feasible(cfg, s, ShutDown())
    ensures var n := Run(cfg, s, ShutDown());
            n.phase == Ended && n.interrupted == s.interrupted
            && n.h.incomplete == s.h.incomplete && n.h.historical == s.h.historical
  {
    var steps := ShutDown();
    var a := Stopped(s, ObserverStopped);
    var b := a.(phase := IngestJoined, ingestAlive := false);
    var c := Stopped(b, Ingested);
    var d := Stopped(c, PipelineChecked);
    var e := d.(phase := BacklogChecked, counted := Some(d.m));
    var f := e.(phase := Ended, h := Emit(e.h, SessionCompleted));
    hide Run;
    hide Feasible;
    QuietStop(cfg, s, a, b, c);
    QuietCheck(cfg, c, d, e, f);
    hide Next;
    hide Enabled;
    RunAlong(cfg, [s, a, b, c, d, e, f], steps);
  }

  lemma QuietStop(cfg: DQ.Config, s: Session, a: Session, b: Session, c: Session)
    requires Idle(s) && s.m.q.raw == [] && a == Stopped(s, ObserverStopped)
    requires b == a.(phase := IngestJoined, ingestAlive := false) && c == Stopped(b, Ingested)
    ensures Enabled(s, StopObserver) && Next(cfg, s, StopObserver) == a
    ensures Enabled(a, JoinIngest(false)) && Next(cfg, a, JoinIngest(false)) == b
    ensures Enabled(b, FinalIngest) && Next(cfg, b, FinalIngest) == c
  {
  }

  lemma QuietCheck(cfg: DQ.Config, c: Session, d: Session, e: Session, f: Session)
    requires c.phase == Ingested && !c.m.q.overflowed && !c.ingestFailed && !Backlog(c.m)
    requires d == Stopped(c, PipelineChecked) && e == d.(phase := BacklogChecked, counted := Some(d.m))
    requires f == e.(phase := Ended, h := Emit(e.h, SessionCompleted))
    ensures Enabled(c, FinalCheck) && Next(cfg, c, FinalCheck) == d
    ensures Enabled(d, BacklogCheck) && Next(cfg, d, BacklogCheck) == e
    ensures Enabled(e, Finish) && Next(cfg, e, Finish) == f
  {
    hide RaiseIssue;
  }

  // ---------- events after the final telemetry ----------

  function LateSession(e: DQ.Event): seq<Step> {
    [StopObserver, JoinIngest(false), FinalIngest, FinalCheck, BacklogCheck, Observe(e), Finish]
  }

  /** An observer that outlives its bounded join can deliver an event after the final telemetry: the
      session ends with a clean summary, and the event is accepted, counted nowhere and never scanned. */
  lemma LateEventIsInNoSummary(cfg: DQ.Config, clock: DQ.Time, event: DQ.Event)
    requires cfg.maxEvents >= 1 && !cfg.Excludes(event.key) && clock <= event.observedAt
    ensures Feasible(cfg, Start(clock), LateSession(event))
    ensures var n := Run(cfg, Start(clock), LateSession(event));
            && n.phase == Ended && !n.interrupted && !SummaryIncomplete(n)
            && n.counted.Some? && n.counted.value.q.received == 0
            && n.m.q.received == 1 && n.m.q.raw == [event] && n.m.h.accepted == [event] && n.handled == []
  {
    var s := Start(clock);
    var a := Stopped(s, ObserverStopped);
    var b := a.(phase := IngestJoined, ingestAlive := false);
    var c := Stopped(b, Ingested);
    var d := Stopped(c, PipelineChecked);
    var e := d.(phase := BacklogChecked, counted := Some(d.m));
    var late := e.(m := DQ.Machine(DQ.Submit(cfg, e.m.q, event), DQ.ObserveSubmit(cfg, e.m, event)));
    var n := late.(phase := Ended, h := Emit(late.h, SessionCompleted));
    LateSubmitted(cfg, clock, event);
    hide DQ.Submit;
    hide DQ.ObserveSubmit;
    hide Run;
    hide Feasible;
    QuietStop(cfg, s, a, b, c);
    QuietCheck(cfg, c, d, e, e.(phase := Ended, h := Emit(e.h, SessionCompleted)));
    LastSteps(cfg, e, late, n, event);
    hide Next;
    hide Enabled;
    RunAlong(cfg, [s, a, b, c, d, e, late, n], LateSession(event));
  }

  lemma LateSubmitted(cfg: DQ.Config, clock: DQ.Time, event: DQ.Event)
    requires cfg.maxEvents >= 1 && !cfg.Excludes(event.key)
    ensures var m := DQ.Start(clock);
            var q, h := DQ.Submit(cfg, m.q, event), DQ.ObserveSubmit(cfg, m, event);
            q.received == 1 && q.raw == [event] && h.accepted == [event]
  {
  }

  lemma LastSteps(cfg: DQ.Config, e: Session, late: Session, n: Session, event: DQ.Event)
    requires e.phase == BacklogChecked && e.m.h.clock <= event.observedAt
    requires late == e.(m := DQ.Machine(DQ.Submit(cfg, e.m.q, event), DQ.ObserveSubmit(cfg, e.m, event)))
    requires n == late.(phase := Ended, h := Emit(late.h, SessionCompleted))
    ensures Enabled(e, Observe(event)) && Next(cfg, e, Observe(event)) == late
    ensures Enabled(late, Finish) && Next(cfg, late, Finish) == n
  {
    hide DQ.Submit;
    hide DQ.ObserveSubmit;
  }

  // ---------- what restoring health takes ----------

  /** The pass that is running began with step `b`, and nothing has ended it since. */
  predicate Began(steps: seq<Step>, b: nat) {
    b < |steps| && steps[b].StartPass? && forall i :: b < i < |steps| ==> !EndsPass(steps[i])
  }

  lemma {:induction false} PassBegan(cfg: DQ.Config, s: Session, steps: seq<Step>)
    requires Feasible(cfg, s, steps) && Run(cfg, s, steps).pass.Some?
    ensures (s.pass.Some? && NoneEnds(steps)) || exists b: nat :: Began(steps, b)
    decreases |steps|
  {
    hide *;
    if steps == [] {
      NoStep(cfg, s, steps);
    } else {
      FirstStep(cfg, s, steps);
      var n, rest := Next(cfg, s, steps[0]), steps[1..];
      PassBegan(cfg, n, rest);
      if exists b: nat :: Began(rest, b) {
        var b: nat :| Began(rest, b);
        BeganLater(steps, b);
      } else {
        PassGoesOn(cfg, s, steps[0]);
        NoneEndsFromFirst(steps);
      }
    }
  }

  /** A pass that is running after a step ran before it, unless the step started it. */
  lemma PassGoesOn(cfg: DQ.Config, s: Session, step: Step)
    requires Enabled(s, step) && Next(cfg, s, step).pass.Some?
    ensures !EndsPass(step) && (s.pass.Some? || step.StartPass?)
  {
    StepMeets(cfg, s, step);
    hide Next;
    hide Enabled;
    hide PassMet;
    hide RaisingStep;
    hide GapStep;
  }

  predicate NoneEnds(steps: seq<Step>) {
    forall i :: 0 <= i < |steps| ==> !EndsPass(steps[i])
  }

  lemma BeganLater(steps: seq<Step>, b: nat)
    requires steps != [] && Began(steps[1..], b)
    ensures Began(steps, b + 1)
  {
    assert forall i :: 0 < i < |steps| ==> steps[i] == steps[1..][i - 1];
  }

  lemma NoneEndsFromFirst(steps: seq<Step>)
    requires steps != [] && NoneEnds(steps[1..])
    ensures !EndsPass(steps[0]) ==> NoneEnds(steps)
    ensures steps[0].StartPass? ==> Began(steps, 0)
  {
    assert forall i :: 0 < i < |steps| ==> steps[i] == steps[1..][i - 1];
  }

  /** The step meets a gap, or fails to read a file, be it only because the file has gone. */
  predicate Misses(s: Session, step: Step) {
    GapStep(s, step) || (step.Inspect? && !step.hash.Hashed?)
  }

  /** The running pass has met no gap and read every file it inspected, and no gap was recorded since
      it began. */
  ghost predicate Clean(s: Session) {
    s.pass.Some? && !PassMet(s.pass) && s.h.gaps == s.pass.value.start.gaps && s.pass.value.unresolved == {}
  }

  /** A run, one step in. */
  lemma FirstStep(cfg: DQ.Config, s: Session, steps: seq<Step>)
    requires Feasible(cfg, s, steps) && steps != []
    ensures Enabled(s, steps[0])
    ensures var n, rest := Next(cfg, s, steps[0]), steps[1..];
            && Feasible(cfg, n, rest) && Run(cfg, s, steps) == Run(cfg, n, rest)
            && StateAt(cfg, s, steps, 0) == s
            && forall i :: 0 < i < |steps| ==> StateAt(cfg, s, steps, i) == StateAt(cfg, n, rest, i - 1)
  {
    hide Next;
    hide Enabled;
  }

  lemma NoStep(cfg: DQ.Config, s: Session, steps: seq<Step>)
    requires steps == []
    ensures Feasible(cfg, s, steps) && Run(cfg, s, steps) == s && NoneEnds(steps)
  {
  }

  lemma NoneEndsAfter(steps: seq<Step>)
    requires NoneEnds(steps) && steps != []
    ensures !EndsPass(steps[0]) && NoneEnds(steps[1..])
  {
  }

  /** Some step of the run misses something. */
  ghost predicate MissesFrom(cfg: DQ.Config, s: Session, steps: seq<Step>, b: nat)
    requires Feasible(cfg, s, steps)
  {
    exists i :: b <= i < |steps| && Misses(StateAt(cfg, s, steps, i), steps[i])
  }

  lemma MissesFirst(cfg: DQ.Config, s: Session, steps: seq<Step>)
    requires Feasible(cfg, s, steps) && steps != []
    ensures Enabled(s, steps[0]) && Feasible(cfg, Next(cfg, s, steps[0]), steps[1..])
    ensures MissesFrom(cfg, s, steps, 0) <==>
            Misses(s, steps[0]) || MissesFrom(cfg, Next(cfg, s, steps[0]), steps[1..], 0)
    ensures forall b: nat :: b > 0 ==>
              (MissesFrom(cfg, s, steps, b) <==> MissesFrom(cfg, Next(cfg, s, steps[0]), steps[1..], b - 1))
  {
    FirstStep(cfg, s, steps);
    hide Misses;
    hide Feasible;
    hide Enabled;
    hide Next;
    var n, rest := Next(cfg, s, steps[0]), steps[1..];
    forall i | 0 < i < |steps| ensures StateAt(cfg, s, steps, i) == StateAt(cfg, n, rest, i - 1) && steps[i] == rest[i - 1] {}
    hide StateAt;
    forall b: nat | b > 0
      ensures MissesFrom(cfg, s, steps, b) <==> MissesFrom(cfg, n, rest, b - 1)
    {
      LaterMisses(cfg, s, steps, n, rest, b);
    }
    LaterMisses(cfg, s, steps, n, rest, 1);
    if MissesFrom(cfg, s, steps, 0) && !Misses(s, steps[0]) {
      var i :| 0 <= i < |steps| && Misses(StateAt(cfg, s, steps, i), steps[i]);
      assert MissesFrom(cfg, s, steps, 1);
    }
    if Misses(s, steps[0]) {
      assert Misses(StateAt(cfg, s, steps, 0), steps[0]);
    }
  }

  lemma LaterMisses(cfg: DQ.Config, s: Session, steps: seq<Step>, n: Session, rest: seq<Step>, b: nat)
    requires Feasible(cfg, s, steps) && Feasible(cfg, n, rest) && |steps| == |rest| + 1 && b > 0
    requires forall i :: 0 < i < |steps| ==>
               StateAt(cfg, s, steps, i) == StateAt(cfg, n, rest, i - 1) && steps[i] == rest[i - 1]
    ensures MissesFrom(cfg, s, steps, b) <==> MissesFrom(cfg, n, rest, b - 1)
  {
    hide Misses;
    hide StateAt;
    hide Feasible;
    if MissesFrom(cfg, s, steps, b) {
      var i :| b <= i < |steps| && Misses(StateAt(cfg, s, steps, i), steps[i]);
      assert Misses(StateAt(cfg, n, rest, i - 1), rest[i - 1]);
    }
    if MissesFrom(cfg, n, rest, b - 1) {
      var i :| b - 1 <= i < |rest| && Misses(StateAt(cfg, n, rest, i), rest[i]);
      assert Misses(StateAt(cfg, s, steps, i + 1), steps[i + 1]);
    }
  }

  /** A pass is clean at the end of a stretch exactly if it was at its beginning and no step missed
      anything. */
  lemma {:induction false} CleanAllAlong(cfg: DQ.Config, s: Session, steps: seq<Step>)
    requires Inv(cfg, s) && Feasible(cfg, s, steps) && s.pass.Some? && NoneEnds(steps)
    ensures Clean(Run(cfg, s, steps)) <==> Clean(s) && !MissesFrom(cfg, s, steps, 0)
    decreases |steps|
  {
    hide *;
    if steps == [] {
      NoStep(cfg, s, steps);
      NothingMissed(cfg, s, steps);
    } else {
      FirstStep(cfg, s, steps);
      MissesFirst(cfg, s, steps);
      var n, rest := Next(cfg, s, steps[0]), steps[1..];
      NoneEndsAfter(steps);
      NextKeepsInv(cfg, s, steps[0]);
      PassStaysOn(cfg, s, steps[0]);
      CleanAllAlong(cfg, n, rest);
      CleanStep(cfg, s, steps[0]);
    }
  }

  lemma NothingMissed(cfg: DQ.Config, s: Session, steps: seq<Step>)
    requires Feasible(cfg, s, steps) && steps == []
    ensures !MissesFrom(cfg, s, steps, 0)
  {
  }

  lemma PassStaysOn(cfg: DQ.Config, s: Session, step: Step)
    requires Enabled(s, step) && s.pass.Some? && !EndsPass(step)
    ensures Next(cfg, s, step).pass.Some?
  {
    hide *;
    StepMeets(cfg, s, step);
    EndingMeans(step);
  }

  lemma EndingMeans(step: Step)
    ensures EndsPass(step) <==> step.FinishPass? || step.Interrupt?
    ensures Deferred(step) <==> step.Visit? || step.Inspect?
  {
  }

  lemma CleanStep(cfg: DQ.Config, s: Session, step: Step)
    requires Inv(cfg, s) && Enabled(s, step) && s.pass.Some? && !EndsPass(step)
    ensures Clean(Next(cfg, s, step)) <==> Clean(s) && !Misses(s, step)
  {
    var n := Next(cfg, s, step);
    StepMeets(cfg, s, step);
    StartStays(cfg, s, step);
    UnresolvedStep(cfg, s, step);
    InvMeans(cfg, s);
    hide Inv;
    SessionHealth(s);
    hide SessionInv;
    hide SinkInv;
    hide ShutdownInv;
    hide WorkInv;
    NextEffect(cfg, s, step);
    StepGaps(cfg, s, step);
    StartsBefore(s);
    hide Next;
    hide Enabled;
    hide PassMet;
    hide GapStep;
    hide RaisingStep;
    hide HealthInv;
    hide SinkFollows;
  }

  lemma StartsBefore(s: Session)
    requires PassWorsens(s) && s.pass.Some?
    ensures s.pass.value.start.gaps <= s.h.gaps
  {
  }

  /** A file stays unresolved exactly if its inspection read nothing. */
  lemma UnresolvedStep(cfg: DQ.Config, s: Session, step: Step)
    requires Enabled(s, step) && s.pass.Some? && !EndsPass(step)
    ensures Next(cfg, s, step).pass.Some?
    ensures Next(cfg, s, step).pass.value.unresolved == {} <==>
            s.pass.value.unresolved == {} && !(step.Inspect? && !step.hash.Hashed?)
  {
    PassStaysOn(cfg, s, step);
    if step.Visit? || step.Inspect? {
      hide DQ.Next;
      if step.Inspect? && !step.hash.Hashed? {
        assert s.pass.value.awaiting.value.0 in Next(cfg, s, step).pass.value.unresolved;
      }
    } else {
      StepMeets(cfg, s, step);
      KindStays(cfg, s, step);
      hide Next;
      hide GapStep;
      hide PassMet;
      hide RaisingStep;
    }
  }

  lemma StartStays(cfg: DQ.Config, s: Session, step: Step)
    requires Enabled(s, step) && s.pass.Some? && !EndsPass(step)
    ensures Next(cfg, s, step).pass.Some? ==> Next(cfg, s, step).pass.value.start == s.pass.value.start
  {
    PassStaysOn(cfg, s, step);
    if step.Visit? {
      VisitFrame(s, step.key, step.fingerprint);
    } else if step.Inspect? {
      InspectFrame(s, step.hash);
    } else {
      StepMeets(cfg, s, step);
    }
    hide DQ.Next;
    hide VisitFile;
    hide InspectFile;
    hide PassMet;
    hide GapStep;
    hide RaisingStep;
    if !step.Visit? && !step.Inspect? { hide Next; }
  }

  /** A raising step is a new gap on record, and no other step but the end of a pass is. */
  lemma StepGaps(cfg: DQ.Config, s: Session, step: Step)
    requires Inv(cfg, s) && Enabled(s, step) && !step.FinishPass?
    ensures RaisingStep(s, step) <==> Next(cfg, s, step).h.gaps > s.h.gaps
  {
    hide *;
    InvMeans(cfg, s);
    SessionHealth(s);
    NextHealth(cfg, s, step);
    RaisingAddsGap(s, step);
  }

  lemma RaisingAddsGap(s: Session, step: Step)
    requires HealthInv(s.h) && Enabled(s, step) && !step.FinishPass?
    ensures RaisingStep(s, step) <==> HealthAfter(s, step).gaps > s.h.gaps
  {
    hide *;
    match step
    case Handle(answer) => HandleAddsGap(s, answer);
    case PipelineCheck => CheckAddsGap(s, step);
    case FinalCheck => CheckAddsGap(s, step);
    case BacklogCheck => BacklogAddsGap(s);
    case _ => OtherAddsGap(s, step);
  }

  lemma IssueAddsGap(h: Health, code: Code, message: Message)
    ensures RaiseIssue(h, code, message).gaps == h.gaps + 1
  {
    hide Sanitize;
  }

  lemma HandleAddsGap(s: Session, answer: PathAnswer)
    requires HealthInv(s.h) && Enabled(s, Handle(answer))
    ensures RaisingStep(s, Handle(answer)) <==> HealthAfter(s, Handle(answer)).gaps > s.h.gaps
  {
    assert HealthAfter(s, Handle(answer)) == HandleNext(s, answer).h && s.todo != [];
    hide *;
    HandleKinds(s, answer);
    ScanPendingEffect(s.h, s.todo[0].key, answer);
  }

  lemma CheckAddsGap(s: Session, step: Step)
    requires Enabled(s, step) && (step.PipelineCheck? || step.FinalCheck?)
    ensures RaisingStep(s, step) <==> HealthAfter(s, step).gaps > s.h.gaps
  {
    IssueAddsGap(s.h, WatchEventIngestStopped, Text("stopped"));
    IssueAddsGap(s.h, WatchEventQueueOverflow, Counted(s.m.q.dropped, 0));
    hide RaiseIssue;
  }

  lemma BacklogAddsGap(s: Session)
    requires Enabled(s, BacklogCheck)
    ensures RaisingStep(s, BacklogCheck) <==> HealthAfter(s, BacklogCheck).gaps > s.h.gaps
  {
    BacklogIs(s);
    IssueAddsGap(s.h, WatchEventBacklogUnprocessed, Depth(s.m));
    hide RaiseIssue;
    hide CheckBacklog;
    hide Backlog;
  }

  lemma OtherAddsGap(s: Session, step: Step)
    requires Enabled(s, step) && !step.FinishPass? && !step.Handle? && !step.PipelineCheck? && !step.FinalCheck?
    requires !step.BacklogCheck?
    ensures RaisingStep(s, step) <==> HealthAfter(s, step).gaps > s.h.gaps
  {
    hide RaiseIssue;
    hide VisitFile;
    hide InspectFile;
    match step
    case HealthProblem(code, message) => IssueAddsGap(s.h, code, Text(message));
    case JoinIngest(alive) => IssueAddsGap(s.h, WatchEventIngestStopped, Text("alive"));
    case Visit(key, fingerprint) => VisitFrame(s, key, fingerprint);
    case Inspect(hash) => InspectFrame(s, hash);
    case _ =>
  }

  /** The recovery latch over the run, in both directions. With the flag up, the end of a pass lowers it
      if and only if the pass read contents, no step from its beginning to its end met a gap or left a
      file unread, be it in its own walk or in any event scan, check or health problem in between, the
      event pipeline is clean at the end, and no gap was ever persistent. Health is then reported by a
      heartbeat with a complete inventory, which heals the sink. */
  lemma RecoveryIsExact(cfg: DQ.Config, clock: DQ.Time, steps: seq<Step>, b: nat, end: Step)
    requires TotalOrder(cfg.le) && cfg.maxEvents >= 1 && Feasible(cfg, Start(clock), steps) && Began(steps, b)
    requires Enabled(Run(cfg, Start(clock), steps), end) && end.FinishPass?
    requires Run(cfg, Start(clock), steps).h.incomplete
    ensures var n := Run(cfg, Start(clock), steps);
            var h := Next(cfg, n, end).h;
            && (!h.incomplete <==>
                  !steps[b].metadataOnly && !MissesFrom(cfg, Start(clock), steps, b) && !Misses(n, end)
                  && !n.m.q.overflowed && !n.ingestFailed && !Ever(cfg, Start(clock), steps, PersistentStep))
            && (!h.incomplete ==>
                  h.records != [] && h.records[|h.records| - 1] == Heartbeat(false, true)
                  && SinkState(h.records) == Healthy)
  {
    hide *;
    var s := Start(clock);
    var n := Run(cfg, s, steps);
    StartIsSound(cfg, clock);
    EveryRunKeepsInv(cfg, s, steps);
    FromTheStart(cfg, s, steps, b);
    FreshStart(clock);
    PersistentOverRun(cfg, s, steps);
    StepShows(cfg, n, end);
    PassRaises(n, end);
    EndMisses(n, end);
    ShownFlag(n, end, Next(cfg, n, end));
    RestoringMeans(n, end);
    if RestoreStep(n, end) {
      RestoreBeats(cfg, n, end);
    }
  }

  lemma EndMisses(s: Session, end: Step)
    requires end.FinishPass?
    ensures Misses(s, end) <==> GapStep(s, end)
  {
    hide GapStep;
  }

  lemma ShownFlag(s: Session, step: Step, n: Session)
    requires Shows(s, step, n)
    ensures n.h.incomplete <==> RaisingStep(s, step) || (s.h.incomplete && !RestoreStep(s, step))
  {
    hide RaisingStep;
    hide RestoreStep;
    hide TellStep;
    hide LeavesInventorying;
    hide SinkState;
  }

  lemma RestoringMeans(s: Session, end: Step)
    requires s.pass.Some? && end.FinishPass?
    ensures RestoreStep(s, end) ==> Clean(s) && !s.pass.value.metadataOnly && !GapStep(s, end)
                                    && !s.m.q.overflowed && !s.ingestFailed && !s.h.persistent
    ensures RaisingStep(s, end) <==> PassMet(s.pass) || GapStep(s, end)
    ensures Clean(s) ==> !PassMet(s.pass)
    ensures (Clean(s) && !s.pass.value.metadataOnly && !GapStep(s, end) && !s.m.q.overflowed && !s.ingestFailed
             && s.h.incomplete && !s.h.persistent) ==> RestoreStep(s, end)
  {
    PassRaises(s, end);
    PassStepKinds(s, end);
    hide Uninspected;
    hide Unfinished;
    hide GapStep;
    hide PassMet;
    hide RaisingStep;
    hide TellStep;
  }

  lemma RestoreBeats(cfg: DQ.Config, s: Session, end: Step)
    requires Inv(cfg, s) && Enabled(s, end) && RestoreStep(s, end)
    ensures var h := Next(cfg, s, end).h;
            && h.records != [] && h.records[|h.records| - 1] == Heartbeat(false, true)
            && SinkState(h.records) == Healthy
  {
    InvMeans(cfg, s);
    hide Inv;
    SessionHealth(s);
    hide SessionInv;
    FinishIs(cfg, s, end);
    RecoversExactly(s, end);
    BeatHeals(FinishScan(s.h, ReportOf(s, end), PassKind(s.pass.value)).records);
    hide Next;
    hide Enabled;
    hide Recovers;
    hide FinishScan;
    hide RestoreStep;
    hide SinkState;
    hide PassWorsens;
    hide HealthInv;
    hide ShutdownInv;
    hide WorkInv;
    hide SinkInv;
  }

  /** In particular a pass that restores health met no gap from its beginning to its end. */
  lemma RestoringPassMetNoGap(cfg: DQ.Config, clock: DQ.Time, steps: seq<Step>, end: Step)
    requires TotalOrder(cfg.le) && cfg.maxEvents >= 1 && Feasible(cfg, Start(clock), steps)
    requires Enabled(Run(cfg, Start(clock), steps), end) && Run(cfg, Start(clock), steps).h.incomplete
    requires !Next(cfg, Run(cfg, Start(clock), steps), end).h.incomplete
    ensures end.FinishPass? && !GapStep(Run(cfg, Start(clock), steps), end)
    ensures exists b: nat :: Began(steps, b) && !steps[b].metadataOnly
                        && forall i :: b <= i < |steps| ==> !GapStep(StateAt(cfg, Start(clock), steps, i), steps[i])
  {
    hide *;
    var s := Start(clock);
    var n := Run(cfg, s, steps);
    IsReachable(cfg, clock, steps);
    RecoveryLatch(cfg, n, end);
    FreshStart(clock);
    PassBegan(cfg, s, steps);
    var b: nat :| Began(steps, b);
    BeganMeans(steps, b);
    RecoveryIsExact(cfg, clock, steps, b, end);
    EndMisses(n, end);
    MissedNoGap(cfg, s, steps, b);
  }

  lemma IsReachable(cfg: DQ.Config, clock: DQ.Time, steps: seq<Step>)
    requires TotalOrder(cfg.le) && cfg.maxEvents >= 1 && Feasible(cfg, Start(clock), steps)
    ensures Reachable(cfg, Run(cfg, Start(clock), steps))
  {
    hide Run;
    hide Feasible;
    hide TotalOrder;
  }

  lemma MissedNoGap(cfg: DQ.Config, s: Session, steps: seq<Step>, b: nat)
    requires Feasible(cfg, s, steps) && !MissesFrom(cfg, s, steps, b)
    ensures forall i :: b <= i < |steps| ==> !GapStep(StateAt(cfg, s, steps, i), steps[i])
  {
    hide GapStep;
    hide StateAt;
    hide Feasible;
  }

  /** The stretch from the beginning of the running pass. */
  lemma {:induction false} FromTheStart(cfg: DQ.Config, s: Session, steps: seq<Step>, b: nat)
    requires Inv(cfg, s) && Feasible(cfg, s, steps) && Began(steps, b)
    ensures Run(cfg, s, steps).pass.Some? && b < |steps| && steps[b].StartPass?
    ensures steps[b].metadataOnly == Run(cfg, s, steps).pass.value.metadataOnly
    ensures Clean(Run(cfg, s, steps)) <==> !MissesFrom(cfg, s, steps, b)
    decreases |steps|
  {
    hide *;
    BeganMeans(steps, b);
    FirstStep(cfg, s, steps);
    MissesFirst(cfg, s, steps);
    NextKeepsInv(cfg, s, steps[0]);
    var n, rest := Next(cfg, s, steps[0]), steps[1..];
    if b == 0 {
      StartMeetsNothing(cfg, s, steps[0]);
      OnlyOnePass(cfg, n, rest);
      CleanAllAlong(cfg, n, rest);
    } else {
      FromTheStart(cfg, n, rest, b - 1);
    }
  }

  lemma BeganMeans(steps: seq<Step>, b: nat)
    requires Began(steps, b)
    ensures b < |steps| && steps[b].StartPass?
    ensures b == 0 ==> NoneEnds(steps[1..])
    ensures b > 0 ==> Began(steps[1..], b - 1)
  {
  }

  lemma StartMeetsNothing(cfg: DQ.Config, s: Session, step: Step)
    requires Enabled(s, step) && step.StartPass?
    ensures !Misses(s, step) && Next(cfg, s, step).pass.Some? && Clean(Next(cfg, s, step))
    ensures Next(cfg, s, step).pass.value.metadataOnly == step.metadataOnly
  {
  }

  /** While a pass runs no other one starts, and its kind stays. */
  lemma {:induction false} OnlyOnePass(cfg: DQ.Config, s: Session, steps: seq<Step>)
    requires Feasible(cfg, s, steps) && s.pass.Some? && NoneEnds(steps)
    ensures Run(cfg, s, steps).pass.Some?
            && Run(cfg, s, steps).pass.value.metadataOnly == s.pass.value.metadataOnly
    decreases |steps|
  {
    hide *;
    if steps == [] {
      NoStep(cfg, s, steps);
    } else {
      FirstStep(cfg, s, steps);
      NoneEndsAfter(steps);
      KindStays(cfg, s, steps[0]);
      OnlyOnePass(cfg, Next(cfg, s, steps[0]), steps[1..]);
    }
  }

  lemma KindStays(cfg: DQ.Config, s: Session, step: Step)
    requires Enabled(s, step) && s.pass.Some? && !EndsPass(step)
    ensures !step.StartPass? && Next(cfg, s, step).pass.Some?
    ensures Next(cfg, s, step).pass.value.metadataOnly == s.pass.value.metadataOnly
  {
    assert !step.StartPass?;
    PassStaysOn(cfg, s, step);
    if step.Visit? || step.Inspect? {
      hide DQ.Next;
    } else {
      StepMeets(cfg, s, step);
      hide Next;
      hide GapStep;
      hide PassMet;
      hide RaisingStep;
    }
  }
}
