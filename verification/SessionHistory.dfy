/**
 What the flags, the final summary and the evidence sink say about a whole run, told from the
 steps of the run alone: which of them were coverage gaps, which of them degraded the sink, and
 which of them restored health.
 */
module SessionHistory {
  import opened Orders
  import opened Paths
  import DQ = DebounceQueue
  import opened WatchHealth
  import opened WatchSession

  // ---------- kinds of steps ----------

  /** The delivered path is the file under inspection, so it is not scanned on its own. */
  predicate PassedOver(s: Session) {
    s.todo != [] && s.pass.Some? && s.pass.value.at == Some(s.todo[0].key)
  }

  function ReportOf(s: Session, step: Step): Report
    requires s.pass.Some? && step.FinishPass?
  {
    PassReport(s.pass.value, step.walk, step.special, step.findings, step.observations, step.quarantine)
  }

  /** The step raises the incomplete flag. A pass raises it at its end, for everything that was met
      during it. */
  predicate RaisingStep(s: Session, step: Step) {
    match step
    case HealthProblem(_, _) => true
    case PipelineCheck => s.ingestFailed || s.m.q.overflowed
    case FinalCheck => s.ingestFailed || s.m.q.overflowed
    case Handle(answer) => !PassedOver(s) && GapAnswer(answer)
    case FinishPass(_, _, _, _, _) =>
      s.pass.Some? && (Uninspected(ReportOf(s, step), PassKind(s.pass.value)) || Unfinished(ReportOf(s, step)))
    case JoinIngest(alive) => alive
    case BacklogCheck => Backlog(s.m)
    case _ => false
  }

  /** The step emits a record that degrades the sink. */
  predicate TellStep(s: Session, step: Step) {
    match step
    case HealthProblem(code, message) => Unreported(s.h, code, Text(message))
    case PipelineCheck => TellsPipeline(s)
    case FinalCheck => TellsPipeline(s)
    case Handle(answer) => !PassedOver(s) && TellsAnswer(s.h, answer)
    case FinishPass(_, _, _, _, _) => s.pass.Some? && Uninspected(ReportOf(s, step), PassKind(s.pass.value))
    case JoinIngest(alive) => alive && Unreported(s.h, WatchEventIngestStopped, Text("alive"))
    case BacklogCheck =>
      Backlog(s.m)
      && Unreported(s.h, WatchEventBacklogUnprocessed, Counted(|s.m.q.raw| + |s.m.q.pending|, 0))
    case Beat => s.h.incomplete || (s.pass.Some? && (s.m.q.overflowed || s.ingestFailed))
    case _ => false
  }

  predicate TellsPipeline(s: Session) {
    if s.ingestFailed then Unreported(s.h, WatchEventIngestStopped, Text("stopped"))
    else s.m.q.overflowed && Unreported(s.h, WatchEventQueueOverflow, Counted(s.m.q.dropped, 0))
  }

  /** The step is the end of a pass that restores health, told without the code's own test: a content
      pass with no gap on record since it began, none left to report and nothing unresolved, while the
      event pipeline is clean and no gap is persistent. */
  predicate RestoreStep(s: Session, step: Step) {
    && step.FinishPass? && s.pass.Some?
    && !s.pass.value.metadataOnly && s.h.gaps == s.pass.value.start.gaps
    && !Uninspected(ReportOf(s, step), PassKind(s.pass.value)) && !Unfinished(ReportOf(s, step))
    && s.pass.value.unresolved == {} && !s.m.q.overflowed && !s.ingestFailed
    && s.h.incomplete && !s.h.persistent
  }

  predicate InventoryEnds(s: Session, step: Step) {
    step.FinishPass? && s.pass.Some? && s.pass.value.metadataOnly
  }

  /** The sink leaves its initial state. */
  predicate LeavesInventorying(s: Session, step: Step) {
    TellStep(s, step) || RestoreStep(s, step) || InventoryEnds(s, step)
  }

  predicate InSession(state: OperationalState) {
    state == InventoryingMetadata || state == Degraded || state == Healthy
  }

  // ---------- one step ----------

  /** What one step makes of the flags and of the sink. */
  ghost predicate Shows(s: Session, step: Step, n: Session) {
    && (n.h.historical <==> s.h.historical || RaisingStep(s, step))
    && (n.h.incomplete <==> RaisingStep(s, step) || (s.h.incomplete && !RestoreStep(s, step)))
    && (!step.Finish? ==>
          (SinkState(n.h.records) == Degraded <==>
             TellStep(s, step) || (SinkState(s.h.records) == Degraded && !RestoreStep(s, step)))
          && (SinkState(n.h.records) == InventoryingMetadata <==>
                SinkState(s.h.records) == InventoryingMetadata && !LeavesInventorying(s, step))
          && (InSession(SinkState(s.h.records)) ==> InSession(SinkState(n.h.records))))
  }

  /** Raising one issue, or none. */
  lemma IssueShows(s: Session, step: Step, n: Session, raised: bool, code: Code, message: Message)
    requires HealthInv(s.h) && !step.FinishPass?
    requires n.h == if raised then RaiseIssue(s.h, code, message) else s.h
    requires RaisingStep(s, step) <==> raised
    requires TellStep(s, step) <==> raised && Unreported(s.h, code, message)
    ensures Shows(s, step, n)
  {
    RaiseIssueEffect(s.h, code, message);
    hide SinkState;
    hide RaisingStep;
    hide TellStep;
    hide Unreported;
  }

  lemma PipelineShows(s: Session, step: Step, n: Session)
    requires HealthInv(s.h) && (step.PipelineCheck? || step.FinalCheck?)
    requires n.h == CheckPipeline(s).h
    ensures Shows(s, step, n)
  {
    hide Shows;
    hide RaiseIssue;
    hide Unreported;
    if s.ingestFailed {
      IssueShows(s, step, n, true, WatchEventIngestStopped, Text("stopped"));
    } else {
      IssueShows(s, step, n, s.m.q.overflowed, WatchEventQueueOverflow, Counted(s.m.q.dropped, 0));
    }
  }

  /** What a scan makes of health, before any recovery. */
  lemma ScanShows(s: Session, step: Step, n: Session)
    requires HealthInv(s.h) && HealthInv(n.h) && Worsens(s.h, n.h) && !step.FinishPass?
    requires n.h.gaps > s.h.gaps <==> RaisingStep(s, step)
    requires SinkState(n.h.records) == if TellStep(s, step) then Degraded else SinkState(s.h.records)
    ensures Shows(s, step, n)
  {
    hide RaisingStep;
    hide TellStep;
    hide SinkState;
  }

  lemma HandleShows(s: Session, answer: PathAnswer)
    requires HealthInv(s.h) && s.todo != []
    ensures Shows(s, Handle(answer), HandleNext(s, answer))
  {
    HandleKinds(s, answer);
    hide *;
    ScanPendingEffect(s.h, s.todo[0].key, answer);
    SameHealth(s.h);
    ScanShows(s, Handle(answer), HandleNext(s, answer));
  }

  lemma HandleKinds(s: Session, answer: PathAnswer)
    requires s.todo != []
    ensures var step := Handle(answer);
            && !step.FinishPass?
            && HandleNext(s, answer).h == (if PassedOver(s) then s.h else ScanPending(s.h, s.todo[0].key, answer))
            && (RaisingStep(s, step) <==> !PassedOver(s) && GapAnswer(answer))
            && (TellStep(s, step) <==> !PassedOver(s) && TellsAnswer(s.h, answer))
  {
    hide ScanPending;
    hide GapAnswer;
    hide TellsAnswer;
  }

  lemma PassShows(s: Session, step: Step)
    requires HealthInv(s.h) && PassWorsens(s) && s.pass.Some? && step.FinishPass?
    ensures Shows(s, step, EndPass(s, ReportOf(s, step)))
  {
    hide *;
    var kind, report := PassKind(s.pass.value), ReportOf(s, step);
    PassStepKinds(s, step);
    FinishScanEffect(s.h, report, kind);
    RestoreFacts(s, step);
    PassEndShows(s, step, FinishScan(s.h, report, kind), EndPass(s, report));
  }

  lemma PassStepKinds(s: Session, step: Step)
    requires s.pass.Some? && step.FinishPass?
    ensures var kind, report := PassKind(s.pass.value), ReportOf(s, step);
            && (RaisingStep(s, step) <==> Uninspected(report, kind) || Unfinished(report))
            && (TellStep(s, step) <==> Uninspected(report, kind))
            && (InventoryEnds(s, step) <==> kind.MetadataInventory?)
            && (kind.MetadataInventory? ==> report.hashed == 0)
  {
    hide Uninspected;
    hide Unfinished;
  }

  /** The code's test on the generation comes to that. */
  lemma RecoversExactly(s: Session, step: Step)
    requires HealthInv(s.h) && PassWorsens(s) && s.pass.Some? && step.FinishPass?
    ensures var report := ReportOf(s, step);
            Recovers(s, FinishScan(s.h, report, PassKind(s.pass.value)), s.pass.value, report)
            <==> RestoreStep(s, step)
  {
    var p, report := s.pass.value, ReportOf(s, step);
    PassStepKinds(s, step);
    FinishScanEffect(s.h, report, PassKind(p));
    WorsensTrans(p.start, s.h, FinishScan(s.h, report, PassKind(p)));
    SortedIssues(report.issues, false);
    hide FinishScan;
    hide Kept;
    hide HasGap;
    hide Unfinished;
    hide RaisingStep;
    hide TellStep;
    hide SinkState;
    hide SinkFollows;
  }

  /** A pass restores health only if it met no gap, and then heals the sink. */
  lemma RestoreFacts(s: Session, step: Step)
    requires s.pass.Some? && step.FinishPass?
    requires var h := FinishScan(s.h, ReportOf(s, step), PassKind(s.pass.value));
             HealthInv(s.h) && Worsens(s.h, h) && PassWorsens(s)
             && (h.gaps > s.h.gaps <==> RaisingStep(s, step))
    ensures var h, n := FinishScan(s.h, ReportOf(s, step), PassKind(s.pass.value)), EndPass(s, ReportOf(s, step));
            && (RestoreStep(s, step) ==> !RaisingStep(s, step) && !TellStep(s, step) && !InventoryEnds(s, step))
            && n.h.incomplete == (h.incomplete && !RestoreStep(s, step)) && n.h.historical == h.historical
            && SinkState(n.h.records) == if RestoreStep(s, step) then Healthy else SinkState(h.records)
  {
    BeatHeals(FinishScan(s.h, ReportOf(s, step), PassKind(s.pass.value)).records);
    PassStepKinds(s, step);
    RecoversExactly(s, step);
    hide Recovers;
    hide FinishScan;
    hide SinkState;
    hide Uninspected;
    hide Unfinished;
    hide RaisingStep;
    hide TellStep;
    hide HealthInv;
    hide Worsens;
  }

  lemma PassEndShows(s: Session, step: Step, h: Health, n: Session)
    requires HealthInv(s.h) && HealthInv(h) && Worsens(s.h, h)
    requires h.gaps > s.h.gaps <==> RaisingStep(s, step)
    requires SinkState(h.records) ==
             if TellStep(s, step) then Degraded
             else if InventoryEnds(s, step) && SinkState(s.h.records) != Degraded then Healthy
             else SinkState(s.h.records)
    requires RestoreStep(s, step) ==> !RaisingStep(s, step) && !TellStep(s, step) && !InventoryEnds(s, step)
    requires n.h.incomplete == (h.incomplete && !RestoreStep(s, step)) && n.h.historical == h.historical
    requires SinkState(n.h.records) == if RestoreStep(s, step) then Healthy else SinkState(h.records)
    ensures Shows(s, step, n)
  {
    hide RaisingStep;
    hide TellStep;
    hide RestoreStep;
    hide InventoryEnds;
    hide SinkState;
  }

  lemma BeatShows(s: Session)
    ensures Shows(s, Beat, s.(h := Emit(s.h, Heartbeat(BeatFlag(s), false))))
  {
    SinkAfter(s.h.records, Heartbeat(BeatFlag(s), false));
    hide SinkState;
  }

  /** A step that is neither a gap nor reported, and leaves health alone but for the cache. */
  lemma SilentShows(s: Session, step: Step, n: Session)
    requires !RaisingStep(s, step) && !TellStep(s, step) && !step.FinishPass?
    requires step.Finish? || n.h.records == s.h.records
    requires n.h.incomplete == s.h.incomplete && n.h.historical == s.h.historical
    ensures Shows(s, step, n)
  {
    hide SinkState;
  }

  lemma NextShows(cfg: DQ.Config, s: Session, step: Step)
    requires HealthInv(s.h) && PassWorsens(s) && Enabled(s, step)
    ensures Shows(s, step, Next(cfg, s, step))
  {
    if step.FinishPass? {
      FinishIs(cfg, s, step);
      hide *;
      assert ReportOf(s, step) == PassReport(s.pass.value, step.walk, step.special, step.findings, step.observations,
                                             step.quarantine) by { ReportIs(s, step); }
      PassShows(s, step);
    } else {
      NextHealth(cfg, s, step);
      hide Next;
      hide Enabled;
      hide Shows;
      hide PassWorsens;
      hide HealthInv;
      hide HealthAfter;
      HealthShows(s, step, Next(cfg, s, step));
    }
  }

  lemma ReportIs(s: Session, step: Step)
    requires s.pass.Some? && step.FinishPass?
    ensures ReportOf(s, step) == PassReport(s.pass.value, step.walk, step.special, step.findings, step.observations,
                                            step.quarantine)
  {
  }

  lemma HealthShows(s: Session, step: Step, n: Session)
    requires HealthInv(s.h) && Enabled(s, step) && !step.FinishPass? && n.h == HealthAfter(s, step)
    ensures Shows(s, step, n)
  {
    hide HealthInv;
    hide RaiseIssue;
    hide Unreported;
    hide SinkState;
    hide HandleNext;
    hide TellsPipeline;
    hide CheckPipeline;
    hide CheckBacklog;
    hide VisitFile;
    hide InspectFile;
    match step
    case HealthProblem(code, message) => hide Shows; IssueShows(s, step, n, true, code, Text(message));
    case PipelineCheck => hide Shows; PipelineShows(s, step, n);
    case FinalCheck => hide Shows; PipelineShows(s, step, n);
    case Handle(answer) => HandleShows(s, answer); hide RaisingStep; hide TellStep;
    case JoinIngest(alive) => hide Shows; IssueShows(s, step, n, alive, WatchEventIngestStopped, Text("alive"));
    case BacklogCheck => BacklogShows(s); hide RaisingStep; hide TellStep;
    case Beat => BeatShows(s); hide RaisingStep; hide TellStep;
    case Visit(key, fingerprint) => VisitFrame(s, key, fingerprint); hide Shows; SilentShows(s, step, n);
    case Inspect(hash) => InspectFrame(s, hash); hide Shows; SilentShows(s, step, n);
    case _ => hide Shows; SilentShows(s, step, n);
  }

  lemma BacklogShows(s: Session)
    requires HealthInv(s.h)
    ensures Shows(s, BacklogCheck, CheckBacklog(s))
  {
    var depth := |s.m.q.raw| + |s.m.q.pending|;
    hide RaiseIssue;
    hide Unreported;
    hide Shows;
    IssueShows(s, BacklogCheck, CheckBacklog(s), depth > 0, WatchEventBacklogUnprocessed, Counted(depth, 0));
  }

  // ---------- a whole run ----------

  ghost function StateAt(cfg: DQ.Config, s: Session, steps: seq<Step>, i: nat): Session
    requires Feasible(cfg, s, steps) && i <= |steps|
    decreases i
  {
    if i == 0 then s else StateAt(cfg, Next(cfg, s, steps[0]), steps[1..], i - 1)
  }

  /** Some step of the run is of this kind. */
  ghost predicate Ever(cfg: DQ.Config, s: Session, steps: seq<Step>, kind: (Session, Step) -> bool)
    requires Feasible(cfg, s, steps)
  {
    exists i :: 0 <= i < |steps| && kind(StateAt(cfg, s, steps, i), steps[i])
  }

  /** Some step of the run is of this kind, and no step after it restores health. */
  ghost predicate SinceRestore(cfg: DQ.Config, s: Session, steps: seq<Step>, kind: (Session, Step) -> bool)
    requires Feasible(cfg, s, steps)
  {
    exists i :: 0 <= i < |steps| && kind(StateAt(cfg, s, steps, i), steps[i])
                && forall j :: i < j < |steps| ==> !RestoreStep(StateAt(cfg, s, steps, j), steps[j])
  }

  lemma EverFromFirst(cfg: DQ.Config, s: Session, steps: seq<Step>, kind: (Session, Step) -> bool)
    requires Feasible(cfg, s, steps) && steps != []
    ensures Ever(cfg, s, steps, kind) <==>
            kind(s, steps[0]) || Ever(cfg, Next(cfg, s, steps[0]), steps[1..], kind)
  {
    hide Next;
    hide Enabled;
    var n, rest := Next(cfg, s, steps[0]), steps[1..];
    if Ever(cfg, s, steps, kind) && !kind(s, steps[0]) {
      var i :| 0 <= i < |steps| && kind(StateAt(cfg, s, steps, i), steps[i]);
      assert kind(StateAt(cfg, n, rest, i - 1), rest[i - 1]);
    }
    if Ever(cfg, n, rest, kind) {
      var i :| 0 <= i < |rest| && kind(StateAt(cfg, n, rest, i), rest[i]);
      assert kind(StateAt(cfg, s, steps, i + 1), steps[i + 1]);
    } else if kind(s, steps[0]) {
      assert kind(StateAt(cfg, s, steps, 0), steps[0]);
    }
  }

  lemma SinceFromFirst(cfg: DQ.Config, s: Session, steps: seq<Step>, kind: (Session, Step) -> bool)
    requires Feasible(cfg, s, steps) && steps != []
    ensures var n, rest := Next(cfg, s, steps[0]), steps[1..];
            SinceRestore(cfg, s, steps, kind) <==>
            (kind(s, steps[0]) && !Ever(cfg, n, rest, RestoreStep)) || SinceRestore(cfg, n, rest, kind)
  {
    hide Next;
    hide Enabled;
    hide RestoreStep;
    var n, rest := Next(cfg, s, steps[0]), steps[1..];
    forall j | 0 <= j < |rest|
      ensures StateAt(cfg, s, steps, j + 1) == StateAt(cfg, n, rest, j) && steps[j + 1] == rest[j] {}
    if SinceRestore(cfg, s, steps, kind) {
      SinceBack(cfg, s, steps, kind);
    }
    if SinceRestore(cfg, n, rest, kind) {
      var i :| 0 <= i < |rest| && kind(StateAt(cfg, n, rest, i), rest[i])
               && forall j :: i < j < |rest| ==> !RestoreStep(StateAt(cfg, n, rest, j), rest[j]);
      forall j | i + 1 < j < |steps| ensures !RestoreStep(StateAt(cfg, s, steps, j), steps[j]) {
        assert StateAt(cfg, s, steps, j) == StateAt(cfg, n, rest, j - 1) && steps[j] == rest[j - 1];
      }
      assert kind(StateAt(cfg, s, steps, i + 1), steps[i + 1]);
    } else if kind(s, steps[0]) && !Ever(cfg, n, rest, RestoreStep) {
      assert kind(StateAt(cfg, s, steps, 0), steps[0]);
      forall j | 0 < j < |steps| ensures !RestoreStep(StateAt(cfg, s, steps, j), steps[j]) {
        assert StateAt(cfg, s, steps, j) == StateAt(cfg, n, rest, j - 1) && steps[j] == rest[j - 1];
      }
    }
  }

  lemma SinceBack(cfg: DQ.Config, s: Session, steps: seq<Step>, kind: (Session, Step) -> bool)
    requires Feasible(cfg, s, steps) && steps != [] && SinceRestore(cfg, s, steps, kind)
    ensures var n, rest := Next(cfg, s, steps[0]), steps[1..];
            (kind(s, steps[0]) && !Ever(cfg, n, rest, RestoreStep)) || SinceRestore(cfg, n, rest, kind)
  {
    hide Next;
    hide Enabled;
    hide RestoreStep;
    var n, rest := Next(cfg, s, steps[0]), steps[1..];
    var i :| 0 <= i < |steps| && kind(StateAt(cfg, s, steps, i), steps[i])
             && forall j :: i < j < |steps| ==> !RestoreStep(StateAt(cfg, s, steps, j), steps[j]);
    forall j | i - 1 < j < |rest| && 0 <= j ensures !RestoreStep(StateAt(cfg, n, rest, j), rest[j]) {
      assert StateAt(cfg, s, steps, j + 1) == StateAt(cfg, n, rest, j) && steps[j + 1] == rest[j];
    }
    if i > 0 {
      assert kind(StateAt(cfg, n, rest, i - 1), rest[i - 1]);
    }
  }

  /** The flags and the sink after any run from a sound state. */
  lemma {:induction false} FlagsOverRun(cfg: DQ.Config, s: Session, steps: seq<Step>)
    requires Inv(cfg, s) && Feasible(cfg, s, steps)
    ensures var n := Run(cfg, s, steps);
            && (n.h.historical <==> s.h.historical || Ever(cfg, s, steps, RaisingStep))
            && (n.h.incomplete <==> SinceRestore(cfg, s, steps, RaisingStep)
                                    || (s.h.incomplete && !Ever(cfg, s, steps, RestoreStep)))
    decreases |steps|
  {
    hide Next;
    hide RaisingStep;
    hide RestoreStep;
    if steps == [] {
    } else {
      StepShows(cfg, s, steps[0]);
      FlagsOverRun(cfg, Next(cfg, s, steps[0]), steps[1..]);
      EverFromFirst(cfg, s, steps, RaisingStep);
      EverFromFirst(cfg, s, steps, RestoreStep);
      SinceFromFirst(cfg, s, steps, RaisingStep);
      hide Ever;
      hide SinceRestore;
    }
    hide Inv;
    hide TellStep;
    hide LeavesInventorying;
    hide SinkState;
  }

  /** The step meets a gap that no later pass can repair. */
  predicate PersistentStep(s: Session, step: Step) {
    match step
    case HealthProblem(_, _) => true
    case PipelineCheck => s.ingestFailed || s.m.q.overflowed
    case FinalCheck => s.ingestFailed || s.m.q.overflowed
    case Handle(answer) =>
      !PassedOver(s) && (answer.OtherFilesystem? || (answer.PathScanned? && Unfinished(answer.report)))
    case FinishPass(_, _, _, _, quarantine) => exists r :: r in quarantine && !r.Stored?
    case JoinIngest(alive) => alive
    case BacklogCheck => Backlog(s.m)
    case _ => false
  }

  lemma PersistentNext(cfg: DQ.Config, s: Session, step: Step)
    requires HealthInv(s.h) && Enabled(s, step)
    ensures Next(cfg, s, step).h.persistent <==> s.h.persistent || PersistentStep(s, step)
  {
    if step.FinishPass? {
      FinishIs(cfg, s, step);
      ScanCosts(s.h, ReportOf(s, step), PassKind(s.pass.value));
      hide Next;
      hide Enabled;
      hide FinishScan;
      hide Recovers;
      hide HasGap;
    } else {
      NextHealth(cfg, s, step);
      hide Next;
      PersistentAfter(s, step);
      hide PersistentStep;
      hide HealthAfter;
    }
    hide HealthInv;
  }

  lemma PersistentAfter(s: Session, step: Step)
    requires HealthInv(s.h) && Enabled(s, step) && !step.FinishPass?
    ensures HealthAfter(s, step).persistent <==> s.h.persistent || PersistentStep(s, step)
  {
    hide *;
    match step
    case Handle(answer) => HandlePersists(s, answer);
    case PipelineCheck => CheckPersists(s); CheckIsPersistent(s, step);
    case FinalCheck => CheckPersists(s); CheckIsPersistent(s, step);
    case BacklogCheck => BacklogPersists(s);
    case _ => OtherPersists(s, step);
  }

  lemma HandlePersists(s: Session, answer: PathAnswer)
    requires HealthInv(s.h) && Enabled(s, Handle(answer))
    ensures HealthAfter(s, Handle(answer)).persistent <==> s.h.persistent || PersistentStep(s, Handle(answer))
  {
    HandleKinds(s, answer);
    DeliveryCosts(s.h, s.todo[0].key, answer);
    hide HealthInv;
    hide HandleNext;
    hide ScanPending;
    hide Unfinished;
    hide RaisingStep;
    hide TellStep;
    hide PassedOver;
  }

  lemma CheckIsPersistent(s: Session, step: Step)
    requires Enabled(s, step) && (step.PipelineCheck? || step.FinalCheck?)
    requires CheckPipeline(s).h.persistent <==> s.h.persistent || s.ingestFailed || s.m.q.overflowed
    ensures HealthAfter(s, step).persistent <==> s.h.persistent || PersistentStep(s, step)
  {
    hide CheckPipeline;
  }

  lemma BacklogPersists(s: Session)
    requires Enabled(s, BacklogCheck)
    ensures HealthAfter(s, BacklogCheck).persistent <==> s.h.persistent || PersistentStep(s, BacklogCheck)
  {
    BacklogIs(s);
    IssuePersists(s.h, WatchEventBacklogUnprocessed, Depth(s.m));
    hide RaiseIssue;
    hide CheckBacklog;
    hide Backlog;
  }

  lemma OtherPersists(s: Session, step: Step)
    requires Enabled(s, step) && !step.FinishPass? && !step.Handle? && !step.PipelineCheck? && !step.FinalCheck?
    requires !step.BacklogCheck?
    ensures HealthAfter(s, step).persistent <==> s.h.persistent || PersistentStep(s, step)
  {
    hide RaiseIssue;
    hide VisitFile;
    hide InspectFile;
    match step
    case HealthProblem(code, message) => IssuePersists(s.h, code, Text(message));
    case JoinIngest(alive) => IssuePersists(s.h, WatchEventIngestStopped, Text("alive"));
    case Visit(key, fingerprint) => VisitFrame(s, key, fingerprint);
    case Inspect(hash) => InspectFrame(s, hash);
    case _ =>
  }

  lemma IssuePersists(h: Health, code: Code, message: Message)
    ensures RaiseIssue(h, code, message).persistent <==>
            h.persistent || (code != WatchPathUnreadable && code != ScanScopeIncomplete)
  {
    hide Sanitize;
  }

  lemma CheckPersists(s: Session)
    ensures CheckPipeline(s).h.persistent <==> s.h.persistent || s.ingestFailed || s.m.q.overflowed
  {
    IssuePersists(s.h, WatchEventIngestStopped, Text("stopped"));
    IssuePersists(s.h, WatchEventQueueOverflow, Counted(s.m.q.dropped, 0));
    hide RaiseIssue;
  }

  /** A gap is persistent over any run exactly when some step met one of that kind. */
  lemma {:induction false} PersistentOverRun(cfg: DQ.Config, s: Session, steps: seq<Step>)
    requires Inv(cfg, s) && Feasible(cfg, s, steps)
    ensures Run(cfg, s, steps).h.persistent <==> s.h.persistent || Ever(cfg, s, steps, PersistentStep)
    decreases |steps|
  {
    hide Next;
    hide PersistentStep;
    if steps == [] {
    } else {
      NextKeepsInv(cfg, s, steps[0]);
      InvMeans(cfg, s);
      SessionHealth(s);
      PersistentNext(cfg, s, steps[0]);
      PersistentOverRun(cfg, Next(cfg, s, steps[0]), steps[1..]);
      EverFromFirst(cfg, s, steps, PersistentStep);
      hide Ever;
    }
    hide Inv;
    hide SessionInv;
    hide HealthInv;
    hide Enabled;
  }

  lemma StepShows(cfg: DQ.Config, s: Session, step: Step)
    requires Inv(cfg, s) && Enabled(s, step)
    ensures Inv(cfg, Next(cfg, s, step)) && Shows(s, step, Next(cfg, s, step))
  {
    hide *;
    NextKeepsInv(cfg, s, step);
    InvMeans(cfg, s);
    SessionHealth(s);
    NextShows(cfg, s, step);
  }

  lemma {:induction false} SinkOverRun(cfg: DQ.Config, s: Session, steps: seq<Step>)
    requires Inv(cfg, s) && Feasible(cfg, s, steps) && Run(cfg, s, steps).phase != Ended
    ensures var state := SinkState(Run(cfg, s, steps).h.records);
            && (state == Degraded <==> SinceRestore(cfg, s, steps, TellStep)
                                       || (SinkState(s.h.records) == Degraded && !Ever(cfg, s, steps, RestoreStep)))
            && (state == InventoryingMetadata <==> SinkState(s.h.records) == InventoryingMetadata
                                                   && !Ever(cfg, s, steps, LeavesInventorying))
    decreases |steps|
  {
    hide RaisingStep;
    hide TellStep;
    hide LeavesInventorying;
    hide RestoreStep;
    hide SinkState;
    if steps == [] {
    } else {
      NeverPastTheEnd(cfg, s, steps);
      hide Next;
      StepShows(cfg, s, steps[0]);
      SinkOverRun(cfg, Next(cfg, s, steps[0]), steps[1..]);
      EverFromFirst(cfg, s, steps, LeavesInventorying);
      EverFromFirst(cfg, s, steps, RestoreStep);
      SinceFromFirst(cfg, s, steps, TellStep);
      hide Ever;
      hide SinceRestore;
    }
    hide Inv;
    hide Enabled;
  }

  /** Nothing follows the end of a session. */
  lemma NeverPastTheEnd(cfg: DQ.Config, s: Session, steps: seq<Step>)
    requires Feasible(cfg, s, steps) && steps != [] && Run(cfg, s, steps).phase != Ended
    ensures !steps[0].Finish?
  {
    if steps[0].Finish? {
      var n := Next(cfg, s, steps[0]);
      assert n.phase == Ended;
      assert Run(cfg, s, steps) == Run(cfg, n, steps[1..]);
      hide *;
      EndIsFinal(cfg, n, steps[1..]);
    }
  }

  lemma EndIsFinal(cfg: DQ.Config, s: Session, steps: seq<Step>)
    requires Feasible(cfg, s, steps) && s.phase == Ended
    ensures steps == [] && Run(cfg, s, steps) == s
  {
  }

  // ---------- main results ----------

  /** The sink shows the watcher healthy while its flag is up exactly when, since health was last
      restored, a gap was met and no step was reported to the sink as degrading, and the sink has
      left its initial state. */
  lemma HealthyWhileIncomplete(cfg: DQ.Config, clock: DQ.Time, steps: seq<Step>)
    requires TotalOrder(cfg.le) && cfg.maxEvents >= 1 && Feasible(cfg, Start(clock), steps)
    requires Run(cfg, Start(clock), steps).phase != Ended
    ensures var n := Run(cfg, Start(clock), steps);
            && (SinkState(n.h.records) == Degraded <==> SinceRestore(cfg, Start(clock), steps, TellStep))
            && (n.h.incomplete && SinkState(n.h.records) == Healthy <==>
                  SinceRestore(cfg, Start(clock), steps, RaisingStep)
                  && !SinceRestore(cfg, Start(clock), steps, TellStep)
                  && Ever(cfg, Start(clock), steps, LeavesInventorying))
  {
    hide *;
    StartIsSound(cfg, clock);
    FreshSink(clock);
    FlagsOverRun(cfg, Start(clock), steps);
    SinkOverRun(cfg, Start(clock), steps);
    ThreeSinkStates(cfg, Start(clock), steps);
    InSessionMeans(SinkState(Run(cfg, Start(clock), steps).h.records));
  }

  lemma FreshSink(clock: DQ.Time)
    ensures var s := Start(clock);
            SinkState(s.h.records) == InventoryingMetadata && !s.h.incomplete && InSession(SinkState(s.h.records))
  {
  }

  lemma InSessionMeans(state: OperationalState)
    ensures InSession(state) <==> state in {InventoryingMetadata, Degraded, Healthy}
  {
  }

  /** Before its end a session's sink is inventorying, degraded or healthy. */
  lemma {:induction false} ThreeSinkStates(cfg: DQ.Config, s: Session, steps: seq<Step>)
    requires Inv(cfg, s) && Feasible(cfg, s, steps) && Run(cfg, s, steps).phase != Ended
    requires InSession(SinkState(s.h.records))
    ensures InSession(SinkState(Run(cfg, s, steps).h.records))
    decreases |steps|
  {
    hide SinkState;
    if steps != [] {
      NeverPastTheEnd(cfg, s, steps);
      StepShows(cfg, s, steps[0]);
      hide Next;
      ThreeSinkStates(cfg, Next(cfg, s, steps[0]), steps[1..]);
    }
    hide Inv;
    hide Enabled;
  }
}
