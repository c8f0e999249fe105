/**
 A whole watch session: the event queue with its observer and ingest threads, the scanning loop,
 reconciliation passes with nested event scans, and the ordered shutdown. Each step is one atomic
 action of one thread, so a run is any sequence of enabled steps. The guards admit at least the
 orders in which the code can take these actions, threads that outlive their bounded joins and an
 interrupt that cuts off a walk or the scan of a path included; what is proved holds for all of them.
 The recording of one finished scan is one action, which an interrupt is taken not to divide.
 */
module WatchSession {
  import opened Orders
  import opened Paths
  import DQ = DebounceQueue
  import opened WatchHealth

  /** A digest of the content that was read. */
  type Digest = int

  /** A file's fingerprint was inventoried, or its content was read under that fingerprint. */
  datatype Evidence = Evidence(key: Key, fingerprint: Fingerprint, read: Option<Digest>)

  /** A reconciliation in progress. `previous` is the live snapshot of `Health` itself. `start`,
      `visited`, `skipped` and `hashedNow` are history: the health at the start, every file the walk
      reported, those left to the cache and those read. */
  datatype Pass = Pass(
    full: bool, metadataOnly: bool, start: Health, current: map<Key, Fingerprint>,
    unresolved: set<Key>, issues: seq<ScanIssue>, tooLarge: nat, hashed: nat,
    awaiting: Option<(Key, Option<Fingerprint>)>, at: Option<Key>,
    visited: set<(Key, Option<Fingerprint>)>, skipped: set<(Key, Fingerprint)>,
    hashedNow: set<(Key, Fingerprint)>)

  /** What became of a delivered path: scanned, or popped during the inspection of that very file. */
  datatype Handled = Scanned(delivery: DQ.Delivery) | UnderInspection(delivery: DQ.Delivery, current: Key)

  datatype Phase = Running | ObserverStopped | IngestJoined | Ingested | PipelineChecked | BacklogChecked | Ended

  /** `ingestAlive` is whether the ingest thread may still run, `counted` the queue as the final
      telemetry saw it. */
  datatype Session = Session(
    m: DQ.Machine, h: Health, ingestAlive: bool, ingestFailed: bool, pass: Option<Pass>,
    todo: seq<DQ.Delivery>, handled: seq<Handled>, phase: Phase, interrupted: bool,
    evidence: set<Evidence>, counted: Option<DQ.Machine>)

  /** What an interrupt cuts off before it is reported: what the walk of the running pass had met, and
      what the scan of the next delivered path had. */
  datatype Cut = Cut(walk: seq<ScanIssue>, special: nat, path: Option<PathAnswer>)

  datatype Hash = Hashed(digest: Digest) | TooLarge | NotHashed(code: IssueCode, absent: bool)

  datatype Step =
    | Observe(event: DQ.Event)
    | Ingest
    | IngestFails
    | HealthProblem(code: Code, message: string)
    | PipelineCheck
    | Pop(now: DQ.Time, maximum: Option<nat>)
    | Handle(answer: PathAnswer)
    | StartPass(full: bool, metadataOnly: bool)
    | Visit(key: Key, fingerprint: Option<Fingerprint>)
    | Inspect(hash: Hash)
    | FinishPass(walk: seq<ScanIssue>, special: nat, findings: nat, observations: nat,
                 quarantine: seq<QuarantineResult>)
    | Beat
    | Interrupt(cut: Cut)
    | StopObserver
    | JoinIngest(alive: bool)
    | FinalIngest
    | FinalCheck
    | BacklogCheck
    | Finish

  predicate Idle(s: Session) {
    s.phase == Running && s.pass.None? && s.todo == []
  }

  predicate Walking(s: Session) {
    s.phase == Running && s.pass.Some? && s.todo == []
  }

  predicate Enabled(s: Session, step: Step) {
    match step
    case Observe(e) => s.phase != Ended && DQ.Enabled(s.m, DQ.SubmitStep(e))
    case Ingest => s.phase != Ended && s.m.q.raw != []
    case IngestFails => s.phase != Ended && s.ingestAlive
    case HealthProblem(code, _) => Idle(s) && !Recoverable(code)
    case PipelineCheck => Idle(s)
    case Pop(now, maximum) =>
      && DQ.Enabled(s.m, DQ.PopStep(now, maximum))
      && if s.pass.None? then Idle(s) && maximum.None? else Walking(s) && s.pass.value.at.Some? && maximum == Some(32)
    case Handle(_) => s.phase == Running && s.todo != []
    case StartPass(full, metadataOnly) => Idle(s) && !(full && metadataOnly)
    case Visit(_, _) => Walking(s) && s.pass.value.awaiting.None?
    case Inspect(hash) =>
      Walking(s) && s.pass.value.awaiting.Some? && HashCode(hash)
    case FinishPass(_, _, _, _, _) => Walking(s) && s.pass.value.awaiting.None?
    case Beat => Idle(s) || Walking(s)
    case Interrupt(cut) =>
      && s.phase == Running
      && (cut.walk != [] || cut.special > 0 ==> s.pass.Some?)
      && (cut.path.Some? ==> s.todo != [])
    case StopObserver => Idle(s)
    case JoinIngest(_) => s.phase == ObserverStopped
    case FinalIngest => s.phase == IngestJoined && s.m.q.raw == []
    case FinalCheck => s.phase == Ingested
    case BacklogCheck => s.phase == PipelineChecked
    case Finish => s.phase == BacklogChecked
  }

  /** The other two codes arise outside the inspection itself. */
  predicate HashCode(hash: Hash) {
    hash.NotHashed? ==> hash.code !in {FileFilterFailed, FileObserverFailed}
  }

  // ---------- the steps ----------

  /** The pipeline check: an ingest failure, then an overflow, is a persistent gap. */
  function CheckPipeline(s: Session): Session {
    if s.ingestFailed then s.(h := RaiseIssue(s.h, WatchEventIngestStopped, Text("stopped")))
    else if s.m.q.overflowed then
      s.(h := RaiseIssue(s.h, WatchEventQueueOverflow, Counted(s.m.q.dropped, 0)), m := DQ.Clear(s.m))
    else s
  }

  function JoinThread(s: Session, alive: bool): Session {
    var s := s.(phase := IngestJoined, ingestAlive := alive);
    if alive then s.(h := RaiseIssue(s.h, WatchEventIngestStopped, Text("alive"))) else s
  }

  function HandleNext(s: Session, answer: PathAnswer): Session
    requires s.todo != []
  {
    var d := s.todo[0];
    if s.pass.Some? && s.pass.value.at == Some(d.key) then
      s.(todo := s.todo[1..], handled := s.handled + [UnderInspection(d, s.pass.value.at.value)])
    else
      s.(todo := s.todo[1..], handled := s.handled + [Scanned(d)], h := ScanPending(s.h, d.key, answer))
  }

  function Begin(s: Session, full: bool, metadataOnly: bool): Session {
    s.(pass := Some(Pass(full, metadataOnly, s.h, map[], {}, [], 0, 0, None, None, {}, {}, {})))
  }

  /** `changed_since_last_reconciliation` for one walked file. An unrepresentable fingerprint is
      an issue in a metadata inventory and a content scan otherwise. */
  function VisitFile(s: Session, key: Key, fingerprint: Option<Fingerprint>): Session
    requires s.pass.Some?
  {
    var p := s.pass.value;
    var same := fingerprint.Some? && key in s.h.snapshot && s.h.snapshot[key] == fingerprint.value;
    s.(h := if fingerprint.None? then s.h else s.h.(snapshot := s.h.snapshot - {key}),
       pass := Some(Visited(p, key, fingerprint, same)),
       evidence := if p.metadataOnly && fingerprint.Some? then s.evidence + {Evidence(key, fingerprint.value, None)}
                   else s.evidence)
  }

  function Visited(p: Pass, key: Key, fingerprint: Option<Fingerprint>, same: bool): Pass {
    var p := p.(visited := p.visited + {(key, fingerprint)}, at := None);
    match fingerprint
    case None =>
      if p.metadataOnly then p.(issues := p.issues + [ScanIssue(key, FileFilterFailed, false)])
      else p.(awaiting := Some((key, None)), at := Some(key))
    case Some(f) =>
      if p.metadataOnly then p.(current := p.current[key := f], at := Some(key))
      else if p.full || !same then p.(awaiting := Some((key, Some(f))))
      else p.(current := p.current[key := f], skipped := p.skipped + {(key, f)})
  }

  /** The inspection of the awaited file and `record_successful_hash`. */
  function InspectFile(s: Session, hash: Hash): Session
    requires s.pass.Some? && s.pass.value.awaiting.Some?
  {
    var (key, fingerprint) := s.pass.value.awaiting.value;
    s.(h := if hash.Hashed? then s.h else s.h.(snapshot := s.h.snapshot - {key}),
       pass := Some(Inspected(s.pass.value, key, fingerprint, hash)),
       evidence := if hash.Hashed? && fingerprint.Some?
                   then s.evidence + {Evidence(key, fingerprint.value, Some(hash.digest))} else s.evidence)
  }

  function Inspected(p: Pass, key: Key, fingerprint: Option<Fingerprint>, hash: Hash): Pass {
    var p := p.(awaiting := None, at := None);
    match hash
    case Hashed(_) =>
      (match fingerprint
       case None => p.(hashed := p.hashed + 1, issues := p.issues + [ScanIssue(key, FileObserverFailed, false)])
       case Some(f) => p.(hashed := p.hashed + 1, current := p.current[key := f], at := Some(key),
                          hashedNow := p.hashedNow + {(key, f)}))
    case TooLarge => p.(tooLarge := p.tooLarge + 1, unresolved := p.unresolved + {key}, at := Some(key))
    case NotHashed(code, absent) =>
      p.(issues := p.issues + [ScanIssue(key, code, absent)], unresolved := p.unresolved + {key}, at := Some(key))
  }

  function PassKind(p: Pass): ScanKind {
    if p.metadataOnly then MetadataInventory else if p.full then FullRescan else Reconciliation
  }

  function PassReport(p: Pass, walk: seq<ScanIssue>, special: nat, findings: nat, observations: nat,
                      quarantine: seq<QuarantineResult>): Report {
    Report(walk + p.issues, special, p.tooLarge, if p.metadataOnly then 0 else p.hashed,
           findings, observations, quarantine)
  }

  /** The guard of the recovery at the end of `_reconcile`; `h` is the health after the scan. */
  predicate Recovers(s: Session, h: Health, p: Pass, report: Report) {
    && !p.metadataOnly
    && Kept(report.issues, false) == []
    && report.special == 0
    && report.tooLarge == 0
    && p.unresolved == {}
    && !s.m.q.overflowed
    && !s.ingestFailed
    && !h.persistent
    && h.generation == p.start.generation
    && h.incomplete
  }

  function EndPass(s: Session, report: Report): Session
    requires s.pass.Some?
  {
    var p := s.pass.value;
    var h := FinishScan(s.h, report, PassKind(p)).(snapshot := p.current);
    s.(pass := None,
       h := if Recovers(s, h, p, report) then Emit(h.(incomplete := false), Heartbeat(false, true)) else h)
  }

  function BeatFlag(s: Session): bool {
    s.h.incomplete || (s.pass.Some? && (s.m.q.overflowed || s.ingestFailed))
  }

  function CheckBacklog(s: Session): Session {
    var depth := |s.m.q.raw| + |s.m.q.pending|;
    var s := s.(phase := BacklogChecked, counted := Some(s.m));
    if depth > 0 then s.(h := RaiseIssue(s.h, WatchEventBacklogUnprocessed, Counted(depth, 0))) else s
  }

  ghost function Next(cfg: DQ.Config, s: Session, step: Step): Session
    requires Enabled(s, step)
  {
    match step
    case Observe(e) => s.(m := DQ.Next(cfg, s.m, DQ.SubmitStep(e)))
    case Ingest => s.(m := DQ.Next(cfg, s.m, DQ.IngestStep))
    case IngestFails => s.(ingestFailed := true)
    case HealthProblem(code, message) => s.(h := RaiseIssue(s.h, code, Text(message)))
    case PipelineCheck => CheckPipeline(s)
    case Pop(now, maximum) => Take(cfg, s, now, maximum)
    case Handle(answer) => HandleNext(s, answer)
    case StartPass(full, metadataOnly) => Begin(s, full, metadataOnly)
    case Visit(key, fingerprint) => VisitFile(s, key, fingerprint)
    case Inspect(hash) => InspectFile(s, hash)
    case FinishPass(walk, special, findings, observations, quarantine) =>
      EndPass(s, PassReport(s.pass.value, walk, special, findings, observations, quarantine))
    case Beat => s.(h := Emit(s.h, Heartbeat(BeatFlag(s), false)))
    case Interrupt(_) => s.(interrupted := true, pass := None, todo := [])
    case StopObserver => s.(phase := ObserverStopped)
    case JoinIngest(alive) => JoinThread(s, alive)
    case FinalIngest => s.(phase := Ingested)
    case FinalCheck => CheckPipeline(s).(phase := PipelineChecked)
    case BacklogCheck => CheckBacklog(s)
    case Finish => s.(phase := Ended, h := Emit(s.h, SessionCompleted))
  }

  ghost function Take(cfg: DQ.Config, s: Session, now: DQ.Time, maximum: Option<nat>): Session
    requires DQ.Enabled(s.m, DQ.PopStep(now, maximum))
  {
    var m := DQ.Next(cfg, s.m, DQ.PopStep(now, maximum));
    if |m.h.deliveries| < |s.m.h.deliveries| then s.(m := m)
    else s.(m := m, todo := m.h.deliveries[|s.m.h.deliveries|..])
  }

  ghost predicate Feasible(cfg: DQ.Config, s: Session, steps: seq<Step>)
    decreases |steps|
  {
    steps == [] || (Enabled(s, steps[0]) && Feasible(cfg, Next(cfg, s, steps[0]), steps[1..]))
  }

  ghost function Run(cfg: DQ.Config, s: Session, steps: seq<Step>): Session
    requires Feasible(cfg, s, steps)
    decreases |steps|
  {
    if steps == [] then s else Run(cfg, Next(cfg, s, steps[0]), steps[1..])
  }

  function Start(clock: DQ.Time): Session {
    Session(DQ.Start(clock), FRESH, true, false, None, [], [], Running, false, {}, None)
  }

  // ---------- invariants ----------

  /** A degraded sink always has a present cause. */
  ghost predicate SinkInv(s: Session) {
    SinkState(s.h.records) == Degraded ==> s.h.incomplete || s.m.q.overflowed || s.ingestFailed
  }

  ghost predicate PassWorsens(s: Session) {
    s.pass.Some? ==> Worsens(s.pass.value.start, s.h)
  }

  ghost predicate Backed(evidence: set<Evidence>, key: Key, f: Fingerprint) {
    exists read :: Evidence(key, f, read) in evidence
  }

  /** The content of the file was read under this fingerprint at some time. */
  ghost predicate WasRead(evidence: set<Evidence>, key: Key, f: Fingerprint) {
    exists d :: Evidence(key, f, Some(d)) in evidence
  }

  ghost predicate BackedMap(evidence: set<Evidence>, m: map<Key, Fingerprint>) {
    forall k :: k in m ==> Backed(evidence, k, m[k])
  }

  /** Every walked file is inventoried, read or left to the cache, unless it is still awaited or
      noted as a gap. */
  ghost predicate Covered(evidence: set<Evidence>, p: Pass, key: Key, fingerprint: Option<Fingerprint>) {
    || p.awaiting == Some((key, fingerprint))
    || key in p.unresolved
    || (match fingerprint
        case None => exists i :: i in p.issues && i.key == key && IsGap(i, false)
        case Some(f) =>
          if p.metadataOnly then Backed(evidence, key, f) else (key, f) in p.hashedNow || (key, f) in p.skipped)
  }

  ghost predicate CacheInv(s: Session) {
    && BackedMap(s.evidence, s.h.snapshot)
    && (s.pass.Some? ==> PassCache(s.evidence, s.h.snapshot, s.pass.value))
  }

  ghost predicate PassCache(evidence: set<Evidence>, snapshot: map<Key, Fingerprint>, p: Pass) {
    PassKeys(snapshot, p) && PassCovered(evidence, p) && PassSkipped(evidence, snapshot, p) && PassCounts(p)
  }

  /** A pass counts what it read, and the file it is at is in the new cache, unresolved, or about to be
      read. */
  ghost predicate PassCounts(p: Pass) {
    && (p.hashed == 0 ==> p.hashedNow == {})
    && (p.hashed > 0 ==> p.hashedNow != {} || HasGap(p.issues, false))
    && (p.at.Some? ==> p.at.value in p.current || p.at.value in p.unresolved || p.awaiting == Some((p.at.value, None)))
  }

  ghost predicate PassKeys(snapshot: map<Key, Fingerprint>, p: Pass) {
    && !(p.full && p.metadataOnly)
    && (p.metadataOnly ==> p.awaiting.None?)
    && (p.awaiting.Some? ==> p.awaiting.value in p.visited)
    && (p.awaiting.Some? && p.awaiting.value.1.Some? ==> p.awaiting.value.0 !in snapshot)
    && snapshot.Keys !! p.current.Keys
    && (forall k :: k in p.current ==> (k, Some(p.current[k])) in p.visited)
  }

  ghost predicate PassCovered(evidence: set<Evidence>, p: Pass) {
    && BackedMap(evidence, p.current)
    && (forall k, f :: (k, f) in p.visited ==> Covered(evidence, p, k, f))
    && (forall k, f :: (k, f) in p.hashedNow ==> WasRead(evidence, k, f))
  }

  /** A file is left to the cache only in a cached pass and only under the fingerprint it had in the
      cache when the pass began. */
  ghost predicate PassSkipped(evidence: set<Evidence>, snapshot: map<Key, Fingerprint>, p: Pass) {
    && snapshot.Items <= p.start.snapshot.Items
    && p.skipped <= p.start.snapshot.Items
    && (p.full || p.metadataOnly ==> p.skipped == {})
    && (forall k, f :: (k, f) in p.skipped ==> Backed(evidence, k, f) && (k, Some(f)) in p.visited)
    && (!p.metadataOnly ==>
          forall k :: k in p.current ==> (k, p.current[k]) in p.hashedNow || (k, p.current[k]) in p.skipped)
  }

  function Deliveries(handled: seq<Handled>): seq<DQ.Delivery> {
    seq(|handled|, i requires 0 <= i < |handled| => handled[i].delivery)
  }

  /** Deliveries are handled in order, and only the file under inspection is passed over. */
  ghost predicate WorkInv(s: Session) {
    && (!s.interrupted ==> s.m.h.deliveries == Deliveries(s.handled) + s.todo)
    && (forall i :: 0 <= i < |s.handled| && s.handled[i].UnderInspection? ==>
          s.handled[i].current == s.handled[i].delivery.key)
    && (s.phase != Running ==> s.todo == [] && s.pass.None?)
  }

  predicate After(a: Phase, b: Phase) {
    Rank(b) <= Rank(a)
  }

  function Rank(p: Phase): nat {
    match p
    case Running => 0
    case ObserverStopped => 1
    case IngestJoined => 2
    case Ingested => 3
    case PipelineChecked => 4
    case BacklogChecked => 5
    case Ended => 6
  }

  predicate Backlog(m: DQ.Machine) {
    m.q.raw != [] || m.q.pending != map[]
  }

  /** What each shutdown stage has established, unless a gap was recorded. */
  ghost predicate ShutdownInv(s: Session) {
    && (s.m.h.cleared > 0 ==> s.h.historical)
    && (After(s.phase, IngestJoined) && s.ingestAlive ==> s.h.historical)
    && (After(s.phase, PipelineChecked) ==> s.h.historical || !s.ingestFailed)
    && (s.phase == PipelineChecked ==> s.h.historical || s.m.q.dropped == 0 || Backlog(s.m))
    && (After(s.phase, BacklogChecked) ==> s.counted.Some? && (s.h.historical || Settled(s.counted.value, s.m)))
  }

  /** Queue `a` is empty with everything accounted for, and `b` is what late events made of it. */
  ghost predicate Settled(a: DQ.Machine, b: DQ.Machine) {
    && Accounted(a) && b.h.cleared == 0 && b.h.deliveries == a.h.deliveries
    && a.h.accepted <= b.h.accepted && a.h.homes <= b.h.homes
    && a.q.received <= b.q.received
    && (if a.q.received == b.q.received then b.q == a.q.(excluded := b.q.excluded) else Backlog(b) || b.q.dropped > 0)
  }

  ghost predicate Accounted(m: DQ.Machine) {
    && m.q.dropped == 0 && m.h.cleared == 0 && !Backlog(m)
    && m.q.received == m.q.debounced + |m.h.deliveries| == |m.h.accepted|
    && |m.h.homes| == |m.h.accepted|
    && forall i :: 0 <= i < |m.h.homes| ==> m.h.homes[i].InDelivery? && m.h.homes[i].index < |m.h.deliveries|
  }

  ghost predicate SessionInv(s: Session) {
    HealthInv(s.h) && SinkInv(s) && PassWorsens(s) && CacheInv(s) && WorkInv(s) && ShutdownInv(s)
  }

  ghost predicate QueueInv(cfg: DQ.Config, m: DQ.Machine) {
    TotalOrder(cfg.le) && cfg.maxEvents >= 1 && DQ.Inv(cfg, m)
  }

  ghost predicate Inv(cfg: DQ.Config, s: Session) {
    QueueInv(cfg, s.m) && SessionInv(s)
  }

  // ---------- steps keep the cache invariant ----------

  lemma ShrunkBacked(evidence: set<Evidence>, m: map<Key, Fingerprint>, n: map<Key, Fingerprint>)
    requires BackedMap(evidence, m) && n.Items <= m.Items
    ensures BackedMap(evidence, n) && n.Keys <= m.Keys
  {
    forall k | k in n ensures k in m && m[k] == n[k] {
      assert (k, n[k]) in m.Items;
    }
  }

  /** Nested event scans and issues only shrink the live snapshot. */
  lemma WorseKeepsCache(s: Session, h: Health)
    requires CacheInv(s) && Worsens(s.h, h)
    ensures CacheInv(s.(h := h))
  {
    ShrunkBacked(s.evidence, s.h.snapshot, h.snapshot);
    hide Covered;
    hide BackedMap;
    hide Backed;
    hide WasRead;
  }

  lemma MoreEvidence(evidence: set<Evidence>, more: set<Evidence>, m: map<Key, Fingerprint>)
    requires evidence <= more && BackedMap(evidence, m)
    ensures BackedMap(more, m)
  {
  }

  lemma StillCovered(evidence: set<Evidence>, more: set<Evidence>, p: Pass, n: Pass, key: Key, f: Option<Fingerprint>)
    requires Covered(evidence, p, key, f) && evidence <= more && n.metadataOnly == p.metadataOnly
    requires p.unresolved <= n.unresolved && p.hashedNow <= n.hashedNow && p.skipped <= n.skipped
    requires forall i :: i in p.issues ==> i in n.issues
    requires p.awaiting == Some((key, f)) ==> Covered(more, n, key, f)
    ensures Covered(more, n, key, f)
  {
  }

  lemma VisitKeepsKeys(s: Session, key: Key, fingerprint: Option<Fingerprint>)
    requires CacheInv(s) && s.pass.Some? && s.pass.value.awaiting.None?
    ensures BackedMap(VisitFile(s, key, fingerprint).evidence, VisitFile(s, key, fingerprint).h.snapshot)
    ensures PassKeys(VisitFile(s, key, fingerprint).h.snapshot, VisitFile(s, key, fingerprint).pass.value)
  {
  }

  lemma VisitKeepsCovered(s: Session, key: Key, fingerprint: Option<Fingerprint>)
    requires CacheInv(s) && s.pass.Some? && s.pass.value.awaiting.None?
    ensures PassCovered(VisitFile(s, key, fingerprint).evidence, VisitFile(s, key, fingerprint).pass.value)
  {
    var n := VisitFile(s, key, fingerprint);
    var p, q := s.pass.value, n.pass.value;
    VisitBacks(s, key, fingerprint);
    hide BackedMap;
    hide Backed;
    hide Covered;
    hide PassKeys;
    assert q.visited == p.visited + {(key, fingerprint)};
    forall k, f | (k, f) in q.visited ensures Covered(n.evidence, q, k, f) {
      if (k, f) != (key, fingerprint) {
        StillCovered(s.evidence, n.evidence, p, q, k, f);
      }
    }
  }

  lemma VisitKeepsSkipped(s: Session, key: Key, fingerprint: Option<Fingerprint>)
    requires CacheInv(s) && s.pass.Some? && s.pass.value.awaiting.None?
    ensures var n := VisitFile(s, key, fingerprint); PassSkipped(n.evidence, n.h.snapshot, n.pass.value)
  {
    var n := VisitFile(s, key, fingerprint);
    hide Covered;
    forall k, f | (k, f) in n.pass.value.skipped
      ensures Backed(n.evidence, k, f) && (k, Some(f)) in n.pass.value.visited
    {
      if (k, f) in s.pass.value.skipped {
        MoreBacked(s.evidence, n.evidence, k, f);
      } else {
        MoreBacked(s.evidence, n.evidence, key, s.h.snapshot[key]);
      }
    }
    hide Backed;
  }

  lemma MoreBacked(evidence: set<Evidence>, more: set<Evidence>, key: Key, f: Fingerprint)
    requires evidence <= more && Backed(evidence, key, f)
    ensures Backed(more, key, f)
  {
  }

  lemma VisitKeepsCounts(s: Session, key: Key, fingerprint: Option<Fingerprint>)
    requires CacheInv(s) && s.pass.Some? && s.pass.value.awaiting.None?
    ensures PassCounts(VisitFile(s, key, fingerprint).pass.value)
  {
    var p, q := s.pass.value, VisitFile(s, key, fingerprint).pass.value;
    assert forall i :: i in p.issues ==> i in q.issues;
    hide PassKeys;
    hide PassCovered;
    hide PassSkipped;
    hide BackedMap;
    hide IsGap;
  }

  lemma InspectKeepsCounts(s: Session, hash: Hash)
    requires CacheInv(s) && s.pass.Some? && s.pass.value.awaiting.Some?
    ensures PassCounts(InspectFile(s, hash).pass.value)
  {
    var p, q := s.pass.value, InspectFile(s, hash).pass.value;
    var (key, fingerprint) := p.awaiting.value;
    assert forall i :: i in p.issues ==> i in q.issues;
    if hash.Hashed? {
      if fingerprint.Some? {
        assert (key, fingerprint.value) in q.hashedNow;
      } else {
        assert q.issues[|p.issues|] in q.issues && IsGap(q.issues[|p.issues|], false);
      }
    }
    hide PassKeys;
    hide PassCovered;
    hide PassSkipped;
    hide BackedMap;
    hide IsGap;
  }

  lemma VisitKeepsCache(s: Session, key: Key, fingerprint: Option<Fingerprint>)
    requires CacheInv(s) && s.pass.Some? && s.pass.value.awaiting.None?
    ensures CacheInv(VisitFile(s, key, fingerprint))
  {
    VisitKeepsKeys(s, key, fingerprint);
    VisitKeepsCovered(s, key, fingerprint);
    VisitKeepsSkipped(s, key, fingerprint);
    VisitKeepsCounts(s, key, fingerprint);
    hide BackedMap;
    hide PassKeys;
    hide PassCovered;
    hide PassSkipped;
    hide PassCounts;
  }

  /** The visited file is awaited, noted as an issue, or backed by evidence. */
  lemma VisitBacks(s: Session, key: Key, fingerprint: Option<Fingerprint>)
    requires CacheInv(s) && s.pass.Some? && s.pass.value.awaiting.None?
    ensures var n := VisitFile(s, key, fingerprint);
            Covered(n.evidence, n.pass.value, key, fingerprint) && BackedMap(n.evidence, n.pass.value.current)
  {
    hide Covered;
    var n := VisitFile(s, key, fingerprint);
    var p, q := s.pass.value, n.pass.value;
    MoreEvidence(s.evidence, n.evidence, p.current);
    match fingerprint
    case None => VisitBacksNone(n.evidence, q, key);
    case Some(f) =>
      if p.metadataOnly {
        assert Evidence(key, f, None) in n.evidence;
        BackedCovers(n.evidence, q, key, f);
      } else if q.awaiting.None? {
        assert Backed(n.evidence, key, f);
        KnownCovers(n.evidence, q, key, f);
      } else {
        AwaitedCovers(n.evidence, q, key, fingerprint);
      }
  }

  lemma VisitBacksNone(evidence: set<Evidence>, q: Pass, key: Key)
    requires q.awaiting == Some((key, None))
             || (q.issues != [] && q.issues[|q.issues| - 1] == ScanIssue(key, FileFilterFailed, false))
    ensures Covered(evidence, q, key, None)
  {
    if q.awaiting != Some((key, None)) {
      var i := q.issues[|q.issues| - 1];
      assert i in q.issues && i.key == key && IsGap(i, false);
    }
  }

  lemma AwaitedCovers(evidence: set<Evidence>, q: Pass, key: Key, f: Option<Fingerprint>)
    requires q.awaiting == Some((key, f))
    ensures Covered(evidence, q, key, f)
  {
  }

  lemma BackedCovers(evidence: set<Evidence>, q: Pass, key: Key, f: Fingerprint)
    requires Backed(evidence, key, f) && q.metadataOnly
    ensures Covered(evidence, q, key, Some(f))
  {
  }

  lemma KnownCovers(evidence: set<Evidence>, q: Pass, key: Key, f: Fingerprint)
    requires !q.metadataOnly && ((key, f) in q.hashedNow || (key, f) in q.skipped)
    ensures Covered(evidence, q, key, Some(f))
  {
  }

  lemma InspectKeepsKeys(s: Session, hash: Hash)
    requires CacheInv(s) && s.pass.Some? && s.pass.value.awaiting.Some?
    requires HashCode(hash)
    ensures BackedMap(InspectFile(s, hash).evidence, InspectFile(s, hash).h.snapshot)
    ensures PassKeys(InspectFile(s, hash).h.snapshot, InspectFile(s, hash).pass.value)
  {
  }

  lemma InspectKeepsCovered(s: Session, hash: Hash)
    requires CacheInv(s) && s.pass.Some? && s.pass.value.awaiting.Some?
    requires HashCode(hash)
    ensures PassCovered(InspectFile(s, hash).evidence, InspectFile(s, hash).pass.value)
  {
    var n := InspectFile(s, hash);
    var p, q := s.pass.value, n.pass.value;
    InspectBacks(s, hash);
    hide BackedMap;
    hide Backed;
    hide Covered;
    assert q.visited == p.visited;
    forall k, f | (k, f) in q.visited ensures Covered(n.evidence, q, k, f) {
      StillCovered(s.evidence, n.evidence, p, q, k, f);
    }
    forall k, f | (k, f) in q.hashedNow ensures WasRead(n.evidence, k, f) {
      if (k, f) in p.hashedNow {
        MoreRead(s.evidence, n.evidence, k, f);
      } else {
        assert Evidence(k, f, Some(hash.digest)) in n.evidence;
      }
    }
    hide PassKeys;
    hide PassSkipped;
  }

  lemma MoreRead(evidence: set<Evidence>, more: set<Evidence>, key: Key, f: Fingerprint)
    requires evidence <= more && WasRead(evidence, key, f)
    ensures WasRead(more, key, f)
  {
  }

  lemma InspectKeepsSkipped(s: Session, hash: Hash)
    requires CacheInv(s) && s.pass.Some? && s.pass.value.awaiting.Some?
    ensures var n := InspectFile(s, hash); PassSkipped(n.evidence, n.h.snapshot, n.pass.value)
  {
    var n := InspectFile(s, hash);
    hide Covered;
    forall k, f | (k, f) in n.pass.value.skipped ensures Backed(n.evidence, k, f) {
      MoreBacked(s.evidence, n.evidence, k, f);
    }
    hide Backed;
  }

  lemma InspectKeepsCache(s: Session, hash: Hash)
    requires CacheInv(s) && s.pass.Some? && s.pass.value.awaiting.Some?
    requires HashCode(hash)
    ensures CacheInv(InspectFile(s, hash))
  {
    InspectKeepsKeys(s, hash);
    InspectKeepsCovered(s, hash);
    InspectKeepsSkipped(s, hash);
    InspectKeepsCounts(s, hash);
    hide BackedMap;
    hide PassKeys;
    hide PassCovered;
    hide PassSkipped;
    hide PassCounts;
  }

  lemma InspectBacks(s: Session, hash: Hash)
    requires CacheInv(s) && s.pass.Some? && s.pass.value.awaiting.Some?
    ensures var n := InspectFile(s, hash);
            var a := s.pass.value.awaiting.value;
            Covered(n.evidence, n.pass.value, a.0, a.1) && BackedMap(n.evidence, n.pass.value.current)
  {
    hide Covered;
    var n := InspectFile(s, hash);
    var p, q := s.pass.value, n.pass.value;
    var (key, fingerprint) := p.awaiting.value;
    MoreEvidence(s.evidence, n.evidence, p.current);
    if hash.Hashed? {
      match fingerprint
      case None => ObserverFailedCovers(n.evidence, q, key);
      case Some(f) =>
        assert Evidence(key, f, Some(hash.digest)) in n.evidence;
        assert Backed(n.evidence, key, f);
        KnownCovers(n.evidence, q, key, f);
    } else {
      UnresolvedCovers(n.evidence, q, key, fingerprint);
    }
  }

  lemma ObserverFailedCovers(evidence: set<Evidence>, q: Pass, key: Key)
    requires q.issues != [] && q.issues[|q.issues| - 1] == ScanIssue(key, FileObserverFailed, false)
    ensures Covered(evidence, q, key, None)
  {
    if q.awaiting != Some((key, None)) {
      var i := q.issues[|q.issues| - 1];
      assert i in q.issues && i.key == key && IsGap(i, false);
    }
  }

  lemma UnresolvedCovers(evidence: set<Evidence>, q: Pass, key: Key, f: Option<Fingerprint>)
    requires key in q.unresolved
    ensures Covered(evidence, q, key, f)
  {
  }

  // ---------- steps keep the invariant ----------

  /** A step that only worsens the health of the session keeps what depends on it. */
  lemma WorseHealthKeeps(s: Session, h: Health)
    requires HealthInv(s.h) && SinkInv(s) && PassWorsens(s) && CacheInv(s) && ShutdownInv(s)
    requires HealthInv(h) && Worsens(s.h, h) && SinkFollows(s.h, h)
    ensures var n := s.(h := h);
            SinkInv(n) && PassWorsens(n) && CacheInv(n) && ShutdownInv(n)
  {
    WorseKeepsCache(s, h);
    if s.pass.Some? {
      WorsensTrans(s.pass.value.start, s.h, h);
    }
    hide CacheInv;
    hide SinkState;
  }

  lemma RaiseFacts(h: Health, code: Code, message: Message)
    ensures var n := RaiseIssue(h, code, message); n.historical && n.incomplete && n.snapshot == h.snapshot
  {
  }

  lemma QueueStepKeeps(s: Session, m: DQ.Machine)
    requires SessionInv(s) && ShutdownInv(s.(m := m))
    requires s.m.q.overflowed ==> m.q.overflowed
    requires m.h.deliveries == s.m.h.deliveries
    ensures SessionInv(s.(m := m))
  {
    hide ShutdownInv;
  }

  /** Events that arrive late, and their ingestion, leave what the shutdown has established. */
  lemma LateSubmit(cfg: DQ.Config, s: Session, e: DQ.Event)
    requires ShutdownInv(s) && cfg.maxEvents >= 1
    ensures ShutdownInv(s.(m := DQ.Machine(DQ.Submit(cfg, s.m.q, e), DQ.ObserveSubmit(cfg, s.m, e))))
  {
    var n := DQ.Machine(DQ.Submit(cfg, s.m.q, e), DQ.ObserveSubmit(cfg, s.m, e));
    if s.counted.Some? && Settled(s.counted.value, s.m) {
      SettledSubmit(cfg, s.counted.value, s.m, e);
    }
    hide Settled;
  }

  lemma SettledSubmit(cfg: DQ.Config, a: DQ.Machine, b: DQ.Machine, e: DQ.Event)
    requires Settled(a, b) && cfg.maxEvents >= 1
    ensures Settled(a, DQ.Machine(DQ.Submit(cfg, b.q, e), DQ.ObserveSubmit(cfg, b, e)))
  {
    hide DQ.Absorb;
  }

  lemma LateIngest(cfg: DQ.Config, s: Session)
    requires ShutdownInv(s) && DQ.Homes(s.m) && s.m.q.raw != [] && cfg.maxEvents >= 1
    ensures ShutdownInv(s.(m := DQ.Machine(DQ.IngestOne(cfg, s.m.q), DQ.ObserveIngest(cfg, s.m))))
  {
    var n := DQ.Machine(DQ.IngestOne(cfg, s.m.q), DQ.ObserveIngest(cfg, s.m));
    IngestKeepsBacklog(cfg, s.m);
    if s.counted.Some? && Settled(s.counted.value, s.m) {
      SettledIngest(cfg, s.counted.value, s.m);
    }
    hide Settled;
    hide DQ.Homes;
  }

  lemma IngestKeepsBacklog(cfg: DQ.Config, m: DQ.Machine)
    requires m.q.raw != [] && cfg.maxEvents >= 1
    ensures var n := DQ.IngestOne(cfg, m.q); n.received == m.q.received && (n.raw != [] || n.pending != map[])
  {
    var e := m.q.raw[0];
    var n := DQ.IngestOne(cfg, m.q);
    assert e.key in n.pending || |m.q.pending| + |n.raw| >= cfg.maxEvents;
    assert e.key !in n.pending && n.raw == [] ==> n.pending == m.q.pending && |n.pending| >= 1;
    hide DQ.Absorb;
  }

  lemma SettledIngest(cfg: DQ.Config, a: DQ.Machine, b: DQ.Machine)
    requires Settled(a, b) && DQ.Homes(b) && b.q.raw != [] && cfg.maxEvents >= 1
    ensures Settled(a, DQ.Machine(DQ.IngestOne(cfg, b.q), DQ.ObserveIngest(cfg, b)))
  {
    var n := DQ.Machine(DQ.IngestOne(cfg, b.q), DQ.ObserveIngest(cfg, b));
    var first := b.h.rawIds[0];
    assert b.h.homes[first] == DQ.InRaw;
    assert forall i :: 0 <= i < |a.h.homes| ==> b.h.homes[i].InDelivery?;
    assert first >= |a.h.homes|;
    IngestKeepsBacklog(cfg, b);
    hide DQ.Homes;
    hide DQ.IngestOne;
  }

  lemma SubmitEffect(cfg: DQ.Config, m: DQ.Machine, e: DQ.Event)
    ensures var n := DQ.Machine(DQ.Submit(cfg, m.q, e), DQ.ObserveSubmit(cfg, m, e));
            && (m.q.overflowed ==> n.q.overflowed)
            && n.h.cleared == m.h.cleared && n.h.deliveries == m.h.deliveries
  {
  }

  lemma IngestEffect(cfg: DQ.Config, m: DQ.Machine)
    requires m.q.raw != []
    ensures var n := DQ.Machine(DQ.IngestOne(cfg, m.q), DQ.ObserveIngest(cfg, m));
            && (m.q.overflowed ==> n.q.overflowed)
            && n.h.cleared == m.h.cleared && n.h.deliveries == m.h.deliveries
  {
  }

  lemma PopEffect(cfg: DQ.Config, m: DQ.Machine, now: DQ.Time, maximum: Option<nat>)
    ensures var n := DQ.Pop(cfg, m, now, maximum);
            && n.q.overflowed == m.q.overflowed && n.q.raw == m.q.raw && n.q.dropped == m.q.dropped
            && n.h.cleared == m.h.cleared && m.h.deliveries <= n.h.deliveries
  {
  }

  lemma TakeKeeps(cfg: DQ.Config, s: Session, now: DQ.Time, maximum: Option<nat>)
    requires SessionInv(s) && Enabled(s, Pop(now, maximum))
    ensures SessionInv(Take(cfg, s, now, maximum))
  {
    PopEffect(cfg, s.m, now, maximum);
    hide DQ.Pop;
    var m := DQ.Pop(cfg, s.m, now, maximum);
    TookKeeps(s, m);
  }

  lemma TookKeeps(s: Session, m: DQ.Machine)
    requires SessionInv(s) && s.phase == Running && s.todo == []
    requires m.q.overflowed == s.m.q.overflowed && m.h.cleared == s.m.h.cleared
    requires s.m.h.deliveries <= m.h.deliveries
    ensures SessionInv(s.(m := m, todo := m.h.deliveries[|s.m.h.deliveries|..]))
  {
  }

  lemma CacheIgnoresWork(s: Session, todo: seq<DQ.Delivery>, handled: seq<Handled>)
    requires CacheInv(s)
    ensures CacheInv(s.(todo := todo, handled := handled))
  {
  }

  lemma HandledWork(s: Session, answer: PathAnswer)
    requires WorkInv(s) && s.phase == Running && s.todo != []
    ensures var n := HandleNext(s, answer);
            && WorkInv(n) && n == s.(h := n.h, todo := n.todo, handled := n.handled)
            && (n.h == s.h || n.h == ScanPending(s.h, s.todo[0].key, answer))
  {
    hide ScanPending;
    HandledNext(s, answer);
    hide HandleNext;
    OneMoreHandled(s, HandleNext(s, answer));
  }

  lemma HandledNext(s: Session, answer: PathAnswer)
    requires s.todo != []
    ensures var n := HandleNext(s, answer);
            && n == s.(h := n.h, todo := n.todo, handled := n.handled) && n.todo == s.todo[1..]
            && |n.handled| == |s.handled| + 1 && s.handled == n.handled[..|s.handled|]
            && n.handled[|s.handled|].delivery == s.todo[0]
            && (n.handled[|s.handled|].UnderInspection? ==> n.handled[|s.handled|].current == s.todo[0].key)
            && (n.h == s.h || n.h == ScanPending(s.h, s.todo[0].key, answer))
  {
    hide ScanPending;
  }

  lemma OneMoreHandled(s: Session, n: Session)
    requires WorkInv(s) && s.phase == Running && s.todo != []
    requires n == s.(h := n.h, todo := n.todo, handled := n.handled) && n.todo == s.todo[1..]
    requires |n.handled| == |s.handled| + 1 && s.handled == n.handled[..|s.handled|]
    requires n.handled[|s.handled|].delivery == s.todo[0]
    requires n.handled[|s.handled|].UnderInspection? ==> n.handled[|s.handled|].current == s.todo[0].key
    ensures WorkInv(n)
  {
    assert Deliveries(n.handled) == Deliveries(s.handled) + [s.todo[0]];
    assert Deliveries(s.handled) + s.todo == Deliveries(n.handled) + n.todo;
    hide Deliveries;
  }

  /** Moving on in the work with worse health keeps the invariant. */
  lemma WorkKeepsSession(s: Session, n: Session)
    requires SessionInv(s) && WorkInv(n) && n == s.(h := n.h, todo := n.todo, handled := n.handled)
    requires HealthInv(n.h) && Worsens(s.h, n.h) && SinkFollows(s.h, n.h)
    ensures SessionInv(n)
  {
    WorseHealthKeeps(s, n.h);
    CacheIgnoresWork(s.(h := n.h), n.todo, n.handled);
    hide CacheInv;
    hide HealthInv;
    hide Worsens;
    hide SinkFollows;
    hide SinkState;
    hide WorkInv;
  }

  lemma HandleKeeps(s: Session, answer: PathAnswer)
    requires SessionInv(s) && Enabled(s, Handle(answer))
    ensures SessionInv(HandleNext(s, answer))
  {
    assert s.phase == Running && s.todo != [];
    SessionParts(s);
    hide *;
    HandledWork(s, answer);
    ScanPendingEffect(s.h, s.todo[0].key, answer);
    SameHealth(s.h);
    WorkKeepsSession(s, HandleNext(s, answer));
  }

  lemma CheckKeeps(cfg: DQ.Config, s: Session)
    requires Inv(cfg, s)
    ensures Inv(cfg, CheckPipeline(s))
    ensures CheckPipeline(s).h.historical || (CheckPipeline(s).m.q.dropped == 0 && !s.ingestFailed)
  {
    hide DQ.Inv;
    hide TotalOrder;
    OverflowMeansDropped(cfg, s.m);
    DQ.ClearKeepsInv(cfg, s.m);
    hide SessionInv;
    hide RaiseIssue;
    IssueKeeps(s, WatchEventIngestStopped, Text("stopped"));
    IssueKeeps(s, WatchEventQueueOverflow, Counted(s.m.q.dropped, 0));
    ClearKeeps(s, RaiseIssue(s.h, WatchEventQueueOverflow, Counted(s.m.q.dropped, 0)));
    RaiseFacts(s.h, WatchEventQueueOverflow, Counted(s.m.q.dropped, 0));
  }

  lemma ClearKeeps(s: Session, h: Health)
    requires SessionInv(s.(h := h)) && h.incomplete && h.historical
    ensures SessionInv(s.(h := h, m := DQ.Clear(s.m)))
  {
  }

  lemma OverflowMeansDropped(cfg: DQ.Config, m: DQ.Machine)
    requires DQ.Inv(cfg, m)
    ensures m.q.overflowed <==> m.q.dropped > 0
  {
  }

  lemma EndPassKeeps(s: Session, walk: seq<ScanIssue>, special: nat, findings: nat,
                     observations: nat, quarantine: seq<QuarantineResult>)
    requires s.pass.Some? && SessionInv(s) && s.phase == Running
    ensures SessionInv(EndPass(s, PassReport(s.pass.value, walk, special, findings, observations, quarantine)))
  {
    var report := PassReport(s.pass.value, walk, special, findings, observations, quarantine);
    SessionParts(s);
    InventoryHashesNothing(s.pass.value, walk, special, findings, observations, quarantine);
    hide *;
    EndPassHealth(s, report);
    EndPassSink(s, report);
    EndPassCache(s, report);
    AssembleInv(EndPass(s, report));
  }

  lemma InventoryHashesNothing(p: Pass, walk: seq<ScanIssue>, special: nat, findings: nat,
                               observations: nat, quarantine: seq<QuarantineResult>)
    ensures PassKind(p).MetadataInventory? ==>
              PassReport(p, walk, special, findings, observations, quarantine).hashed == 0
  {
  }

  lemma AssembleInv(s: Session)
    requires HealthInv(s.h) && SinkInv(s) && CacheInv(s) && WorkInv(s) && ShutdownInv(s) && s.pass.None?
    ensures SessionInv(s)
  {
  }

  lemma EndPassCache(s: Session, report: Report)
    requires s.pass.Some? && CacheInv(s)
    ensures CacheInv(EndPass(s, report))
  {
  }

  lemma EndPassSink(s: Session, report: Report)
    requires s.pass.Some? && HealthInv(s.h) && SinkInv(s)
    requires PassKind(s.pass.value).MetadataInventory? ==> report.hashed == 0
    ensures SinkInv(EndPass(s, report))
  {
    hide *;
    var h := FinishScan(s.h, report, PassKind(s.pass.value));
    FinishScanEffect(s.h, report, PassKind(s.pass.value));
    BeatHeals(h.records);
    FollowingSink(s.h, h);
    EndPassShowsSink(s, report);
  }

  lemma FollowingSink(a: Health, b: Health)
    requires Worsens(a, b) && SinkFollows(a, b)
    ensures SinkState(b.records) == Degraded ==> SinkState(a.records) == Degraded || b.incomplete
    ensures a.incomplete ==> b.incomplete
  {
  }

  lemma EndPassShowsSink(s: Session, report: Report)
    requires s.pass.Some? && SinkInv(s)
    requires var h := FinishScan(s.h, report, PassKind(s.pass.value));
             && SinkState(h.records + [Heartbeat(false, true)]) == Healthy
             && (SinkState(h.records) == Degraded ==> SinkState(s.h.records) == Degraded || h.incomplete)
             && (s.h.incomplete ==> h.incomplete)
    ensures SinkInv(EndPass(s, report))
  {
    hide FinishScan;
    hide SinkState;
    hide Recovers;
  }

  lemma EndPassHealth(s: Session, report: Report)
    requires s.pass.Some? && s.phase == Running && HealthInv(s.h) && WorkInv(s) && ShutdownInv(s)
    requires PassKind(s.pass.value).MetadataInventory? ==> report.hashed == 0
    ensures var n := EndPass(s, report);
            HealthInv(n.h) && WorkInv(n) && ShutdownInv(n) && n.pass.None?
  {
    FinishScanEffect(s.h, report, PassKind(s.pass.value));
    hide FinishScan;
    hide SinkFollows;
    hide Kept;
    hide OutcomeOf;
  }

  lemma BeatHeals(records: seq<Record>)
    ensures SinkState(records + [Heartbeat(false, true)]) == Healthy
  {
  }

  lemma BeatKeeps(s: Session, r: Record)
    requires SessionInv(s) && (r.Heartbeat? || r.SessionCompleted?)
    requires r.Heartbeat? ==> !r.inventoryComplete && r.operationalIncomplete == BeatFlag(s)
    ensures SessionInv(s.(h := Emit(s.h, r)))
  {
  }

  lemma QueueNextKeeps(cfg: DQ.Config, m: DQ.Machine, step: DQ.Step)
    requires QueueInv(cfg, m) && DQ.Enabled(m, step)
    ensures QueueInv(cfg, DQ.Next(cfg, m, step))
  {
    hide DQ.Inv;
    hide DQ.Next;
    hide TotalOrder;
    DQ.NextKeepsInv(cfg, m, step);
  }

  lemma ObserveKeeps(cfg: DQ.Config, s: Session, e: DQ.Event)
    requires Inv(cfg, s) && Enabled(s, Observe(e))
    ensures Inv(cfg, Next(cfg, s, Observe(e)))
  {
    hide DQ.Inv;
    hide TotalOrder;
    SessionShutdown(s);
    assert cfg.maxEvents >= 1;
    hide QueueInv;
    hide SessionInv;
    hide DQ.Submit;
    hide DQ.ObserveSubmit;
    hide ShutdownInv;
    hide WorkInv;
    QueueNextKeeps(cfg, s.m, DQ.SubmitStep(e));
    SubmitEffect(cfg, s.m, e);
    LateSubmit(cfg, s, e);
    QueueStepKeeps(s, DQ.Next(cfg, s.m, DQ.SubmitStep(e)));
  }

  lemma IngestKeeps(cfg: DQ.Config, s: Session)
    requires Inv(cfg, s) && Enabled(s, Ingest)
    ensures Inv(cfg, Next(cfg, s, Ingest))
  {
    hide DQ.Counts;
    hide DQ.Timing;
    hide DQ.Homes;
    hide DQ.Honest;
    hide DQ.Seen;
    hide TotalOrder;
    assert DQ.Homes(s.m) && cfg.maxEvents >= 1;
    hide QueueInv;
    SessionShutdown(s);
    hide SessionInv;
    hide DQ.IngestOne;
    hide DQ.ObserveIngest;
    QueueNextKeeps(cfg, s.m, DQ.IngestStep);
    IngestEffect(cfg, s.m);
    LateIngest(cfg, s);
    hide ShutdownInv;
    hide WorkInv;
    QueueStepKeeps(s, DQ.Next(cfg, s.m, DQ.IngestStep));
  }

  lemma SessionShutdown(s: Session)
    requires SessionInv(s)
    ensures ShutdownInv(s) && WorkInv(s)
  {
  }

  lemma FailKeeps(s: Session)
    requires SessionInv(s) && Enabled(s, IngestFails)
    ensures SessionInv(s.(ingestFailed := true))
  {
  }

  lemma IssueKeeps(s: Session, code: Code, message: Message)
    requires SessionInv(s)
    ensures SessionInv(s.(h := RaiseIssue(s.h, code, message)))
    ensures RaiseIssue(s.h, code, message).historical
  {
  }

  lemma BeginKeeps(s: Session, full: bool, metadataOnly: bool)
    requires SessionInv(s) && Enabled(s, StartPass(full, metadataOnly))
    ensures SessionInv(Begin(s, full, metadataOnly))
  {
  }

  /** Moving on within a pass, with at most cache entries gone, keeps the session invariant. */
  lemma MoveKeeps(s: Session, n: Session)
    requires SessionInv(s) && s.pass.Some? && n.pass.Some? && n.pass.value.start == s.pass.value.start
    requires n == s.(h := n.h, pass := n.pass, evidence := n.evidence)
    requires HealthInv(n.h) && Worsens(s.h, n.h) && n.h.records == s.h.records
    requires CacheInv(n)
    ensures SessionInv(n)
  {
  }

  lemma VisitFrame(s: Session, key: Key, fingerprint: Option<Fingerprint>)
    requires s.pass.Some?
    ensures var n := VisitFile(s, key, fingerprint);
            && n == s.(h := n.h, pass := n.pass, evidence := n.evidence)
            && n.pass.Some? && n.pass.value.start == s.pass.value.start
            && (n.h == s.h || n.h == s.h.(snapshot := s.h.snapshot - {key}))
  {
  }

  lemma VisitKeeps(s: Session, key: Key, fingerprint: Option<Fingerprint>)
    requires SessionInv(s) && Enabled(s, Visit(key, fingerprint))
    ensures SessionInv(VisitFile(s, key, fingerprint))
  {
    VisitKeepsCache(s, key, fingerprint);
    VisitFrame(s, key, fingerprint);
    ShrinkWorsens(s.h, key);
    hide VisitFile;
    hide SinkInv;
    hide PassWorsens;
    hide CacheInv;
    hide WorkInv;
    hide ShutdownInv;
    hide Worsens;
    hide HealthInv;
    MoveKeeps(s, VisitFile(s, key, fingerprint));
  }

  lemma ShrinkWorsens(h: Health, key: Key)
    requires HealthInv(h)
    ensures Worsens(h, h) && Worsens(h, h.(snapshot := h.snapshot - {key}))
    ensures SinkFollows(h, h) && SinkFollows(h, h.(snapshot := h.snapshot - {key}))
    ensures HealthInv(h.(snapshot := h.snapshot - {key}))
  {
  }

  lemma InspectFrame(s: Session, hash: Hash)
    requires s.pass.Some? && s.pass.value.awaiting.Some?
    ensures var n := InspectFile(s, hash);
            && n == s.(h := n.h, pass := n.pass, evidence := n.evidence)
            && n.pass.Some? && n.pass.value.start == s.pass.value.start
            && (n.h == s.h || n.h == s.h.(snapshot := s.h.snapshot - {s.pass.value.awaiting.value.0}))
  {
  }

  lemma InspectKeeps(s: Session, hash: Hash)
    requires SessionInv(s) && Enabled(s, Inspect(hash))
    ensures SessionInv(InspectFile(s, hash))
  {
    InspectKeepsCache(s, hash);
    InspectFrame(s, hash);
    ShrinkWorsens(s.h, s.pass.value.awaiting.value.0);
    hide InspectFile;
    hide SinkInv;
    hide PassWorsens;
    hide CacheInv;
    hide WorkInv;
    hide ShutdownInv;
    hide Worsens;
    hide HealthInv;
    MoveKeeps(s, InspectFile(s, hash));
  }

  lemma InterruptKeeps(s: Session)
    requires SessionInv(s) && s.phase == Running
    ensures SessionInv(s.(interrupted := true, pass := None, todo := []))
  {
  }

  lemma PhaseKeeps(s: Session, phase: Phase)
    requires SessionInv(s) && s.pass.None? && s.todo == []
    requires Rank(phase) == Rank(s.phase) + 1 && phase != BacklogChecked
    requires phase == IngestJoined ==> s.ingestAlive ==> s.h.historical
    requires phase == PipelineChecked ==> s.h.historical || (s.m.q.dropped == 0 && !s.ingestFailed)
    ensures SessionInv(s.(phase := phase))
  {
    hide Settled;
  }

  lemma BacklogKeeps(cfg: DQ.Config, s: Session)
    requires Inv(cfg, s) && s.phase == PipelineChecked
    ensures SessionInv(CheckBacklog(s))
  {
    hide *;
    InvMeans(cfg, s);
    SessionShutdown(s);
    BacklogIs(s);
    if Backlog(s.m) {
      IssueKeeps(s, WatchEventBacklogUnprocessed, Depth(s.m));
      CountKeeps(s.(h := RaiseIssue(s.h, WatchEventBacklogUnprocessed, Depth(s.m))));
    } else {
      QueueIsSound(cfg, s.m);
      BacklogAccounts(cfg, s);
      CountKeeps(s);
    }
  }

  function Depth(m: DQ.Machine): Message {
    Counted(|m.q.raw| + |m.q.pending|, 0)
  }

  lemma BacklogIs(s: Session)
    ensures CheckBacklog(s) ==
            (if Backlog(s.m) then s.(h := RaiseIssue(s.h, WatchEventBacklogUnprocessed, Depth(s.m))) else s).(
              phase := BacklogChecked, counted := Some(s.m))
  {
    assert |s.m.q.raw| + |s.m.q.pending| > 0 <==> Backlog(s.m);
    hide RaiseIssue;
  }

  lemma InvMeans(cfg: DQ.Config, s: Session)
    ensures Inv(cfg, s) <==> QueueInv(cfg, s.m) && SessionInv(s)
  {
    hide QueueInv;
    hide SessionInv;
  }

  lemma QueueIsSound(cfg: DQ.Config, m: DQ.Machine)
    requires QueueInv(cfg, m)
    ensures DQ.Inv(cfg, m) && TotalOrder(cfg.le) && cfg.maxEvents >= 1
  {
    hide DQ.Inv;
    hide TotalOrder;
  }

  lemma CountKeeps(s: Session)
    requires SessionInv(s) && s.phase == PipelineChecked && (s.h.historical || Accounted(s.m))
    ensures SessionInv(s.(phase := BacklogChecked, counted := Some(s.m)))
  {
  }

  lemma BacklogAccounts(cfg: DQ.Config, s: Session)
    requires DQ.Inv(cfg, s.m) && ShutdownInv(s) && s.phase == PipelineChecked && !Backlog(s.m)
    ensures s.h.historical || Accounted(s.m)
  {
    if !s.h.historical {
      DrainedAccounts(cfg, s.m);
    }
    hide DQ.Inv;
  }

  lemma QuietOutside(s: Session)
    requires SessionInv(s) && s.phase != Running
    ensures s.pass.None? && s.todo == []
  {
  }

  /** What each shutdown step is. */
  lemma StopStepsAre(cfg: DQ.Config, s: Session, alive: bool)
    ensures Enabled(s, StopObserver) ==>
              Idle(s) && s.phase == Running && s.pass.None? && s.todo == []
              && Next(cfg, s, StopObserver) == s.(phase := ObserverStopped)
    ensures Enabled(s, JoinIngest(alive)) ==>
              s.phase == ObserverStopped && Next(cfg, s, JoinIngest(alive)) == JoinThread(s, alive)
    ensures Enabled(s, FinalIngest) ==>
              s.phase == IngestJoined && Next(cfg, s, FinalIngest) == s.(phase := Ingested)
    ensures JoinThread(s, alive).m == s.m
  {
    hide RaiseIssue;
  }

  lemma FinalStepsAre(cfg: DQ.Config, s: Session)
    ensures Enabled(s, FinalCheck) ==>
              s.phase == Ingested && Next(cfg, s, FinalCheck) == CheckPipeline(s).(phase := PipelineChecked)
    ensures Enabled(s, BacklogCheck) ==> s.phase == PipelineChecked && Next(cfg, s, BacklogCheck) == CheckBacklog(s)
    ensures Enabled(s, Finish) ==>
              s.phase == BacklogChecked && Next(cfg, s, Finish) == s.(phase := Ended, h := Emit(s.h, SessionCompleted))
    ensures CheckBacklog(s).m == s.m
  {
    hide RaiseIssue;
    hide CheckPipeline;
  }

  lemma RankNext()
    ensures Rank(ObserverStopped) == Rank(Running) + 1 && Rank(IngestJoined) == Rank(ObserverStopped) + 1
    ensures Rank(Ingested) == Rank(IngestJoined) + 1 && Rank(PipelineChecked) == Rank(Ingested) + 1
  {
  }

  lemma StopObserverKeeps(cfg: DQ.Config, s: Session)
    requires Inv(cfg, s) && Enabled(s, StopObserver)
    ensures Inv(cfg, Next(cfg, s, StopObserver))
  {
    hide *;
    StopStepsAre(cfg, s, false);
    InvMeans(cfg, s);
    RankNext();
    PhaseKeeps(s, ObserverStopped);
    InvMeans(cfg, s.(phase := ObserverStopped));
  }

  lemma JoinKeeps(cfg: DQ.Config, s: Session, alive: bool)
    requires Inv(cfg, s) && Enabled(s, JoinIngest(alive))
    ensures Inv(cfg, Next(cfg, s, JoinIngest(alive)))
  {
    hide *;
    StopStepsAre(cfg, s, alive);
    InvMeans(cfg, s);
    QuietOutside(s);
    JoinedSession(s, alive);
    InvMeans(cfg, JoinThread(s, alive));
  }

  lemma FinalIngestKeeps(cfg: DQ.Config, s: Session)
    requires Inv(cfg, s) && Enabled(s, FinalIngest)
    ensures Inv(cfg, Next(cfg, s, FinalIngest))
  {
    hide *;
    StopStepsAre(cfg, s, false);
    InvMeans(cfg, s);
    QuietOutside(s);
    RankNext();
    PhaseKeeps(s, Ingested);
    InvMeans(cfg, s.(phase := Ingested));
  }

  lemma FinalCheckKeeps(cfg: DQ.Config, s: Session)
    requires Inv(cfg, s) && Enabled(s, FinalCheck)
    ensures Inv(cfg, Next(cfg, s, FinalCheck))
  {
    hide *;
    FinalStepsAre(cfg, s);
    InvMeans(cfg, s);
    QuietOutside(s);
    RankNext();
    CheckKeeps(cfg, s);
    CheckFrame(s);
    var n := CheckPipeline(s);
    InvMeans(cfg, n);
    PhaseKeeps(n, PipelineChecked);
    InvMeans(cfg, n.(phase := PipelineChecked));
  }

  lemma BacklogCheckKeeps(cfg: DQ.Config, s: Session)
    requires Inv(cfg, s) && Enabled(s, BacklogCheck)
    ensures Inv(cfg, Next(cfg, s, BacklogCheck))
  {
    hide *;
    FinalStepsAre(cfg, s);
    BacklogKeeps(cfg, s);
    InvMeans(cfg, s);
    InvMeans(cfg, CheckBacklog(s));
  }

  lemma EndKeeps(cfg: DQ.Config, s: Session)
    requires Inv(cfg, s) && Enabled(s, Finish)
    ensures Inv(cfg, Next(cfg, s, Finish))
  {
    hide *;
    FinalStepsAre(cfg, s);
    InvMeans(cfg, s);
    QuietOutside(s);
    FinishKeeps(s);
    InvMeans(cfg, s.(phase := Ended, h := Emit(s.h, SessionCompleted)));
  }

  lemma JoinedSession(s: Session, alive: bool)
    requires SessionInv(s) && s.phase == ObserverStopped && s.pass.None? && s.todo == []
    ensures SessionInv(JoinThread(s, alive))
  {
    AliveKeeps(s, alive);
    hide *;
    var t := s.(ingestAlive := alive);
    var message := Text("alive");
    IssueKeeps(t, WatchEventIngestStopped, message);
    var u := if alive then t.(h := RaiseIssue(t.h, WatchEventIngestStopped, message)) else t;
    assert JoinThread(s, alive) == u.(phase := IngestJoined) by { JoinIsIssueThenPhase(s, alive); }
    RankNext();
    PhaseKeeps(u, IngestJoined);
  }

  lemma JoinIsIssueThenPhase(s: Session, alive: bool)
    ensures var t := s.(ingestAlive := alive);
            var u := if alive then t.(h := RaiseIssue(t.h, WatchEventIngestStopped, Text("alive"))) else t;
            JoinThread(s, alive) == u.(phase := IngestJoined)
  {
    hide RaiseIssue;
  }

  lemma AliveKeeps(s: Session, alive: bool)
    requires SessionInv(s) && s.phase == ObserverStopped
    ensures SessionInv(s.(ingestAlive := alive))
  {
  }

  lemma FinishKeeps(s: Session)
    requires SessionInv(s) && s.phase == BacklogChecked && s.pass.None? && s.todo == []
    ensures SessionInv(s.(phase := Ended, h := Emit(s.h, SessionCompleted)))
  {
    var n := s.(phase := Ended, h := Emit(s.h, SessionCompleted));
    SinkAfter(s.h.records, SessionCompleted);
    SessionParts(s);
    hide SessionInv;
    hide SinkState;
    hide Settled;
    hide BackedMap;
    hide PassCache;
    assert HealthInv(n.h) && SinkInv(n) && CacheInv(n) && WorkInv(n) && ShutdownInv(n);
    hide *;
    AssembleInv(n);
  }

  lemma CheckFrame(s: Session)
    ensures var n := CheckPipeline(s);
            n.phase == s.phase && n.pass == s.pass && n.todo == s.todo && n.ingestFailed == s.ingestFailed
  {
  }

  lemma NextKeepsInv(cfg: DQ.Config, s: Session, step: Step)
    requires Inv(cfg, s) && Enabled(s, step)
    ensures Inv(cfg, Next(cfg, s, step))
  {
    hide SessionInv;
    hide QueueInv;
    hide DQ.Next;
    hide CheckPipeline;
    hide CheckBacklog;
    hide JoinThread;
    hide HandleNext;
    hide Begin;
    hide VisitFile;
    hide InspectFile;
    hide EndPass;
    hide RaiseIssue;
    match step
    case Observe(e) => ObserveKeeps(cfg, s, e);
    case Ingest => IngestKeeps(cfg, s);
    case IngestFails => FailKeeps(s);
    case HealthProblem(code, message) => IssueKeeps(s, code, Text(message));
    case PipelineCheck => CheckKeeps(cfg, s);
    case Pop(now, maximum) => TakeKeeps(cfg, s, now, maximum); TakeQueue(cfg, s, now, maximum);
    case Handle(answer) => HandleKeeps(s, answer); HandleFrame(s, answer);
    case StartPass(full, metadataOnly) => BeginKeeps(s, full, metadataOnly); BeginFrame(s, full, metadataOnly);
    case Visit(key, fingerprint) => VisitKeeps(s, key, fingerprint); VisitFrame(s, key, fingerprint);
    case Inspect(hash) => InspectKeeps(s, hash); InspectFrame(s, hash);
    case FinishPass(walk, special, findings, observations, quarantine) =>
      EndPassKeeps(s, walk, special, findings, observations, quarantine);
      EndPassFrame(s, PassReport(s.pass.value, walk, special, findings, observations, quarantine));
    case Beat => BeatKeeps(s, Heartbeat(BeatFlag(s), false));
    case Interrupt(_) => InterruptKeeps(s);
    case StopObserver => StopObserverKeeps(cfg, s);
    case JoinIngest(alive) => JoinKeeps(cfg, s, alive);
    case FinalIngest => FinalIngestKeeps(cfg, s);
    case FinalCheck => FinalCheckKeeps(cfg, s);
    case BacklogCheck => BacklogCheckKeeps(cfg, s);
    case Finish => EndKeeps(cfg, s);
  }

  lemma TakeQueue(cfg: DQ.Config, s: Session, now: DQ.Time, maximum: Option<nat>)
    requires QueueInv(cfg, s.m) && DQ.Enabled(s.m, DQ.PopStep(now, maximum))
    ensures QueueInv(cfg, Take(cfg, s, now, maximum).m)
  {
    hide QueueInv;
    hide DQ.Pop;
    QueueNextKeeps(cfg, s.m, DQ.PopStep(now, maximum));
  }

  lemma HandleFrame(s: Session, answer: PathAnswer)
    requires s.todo != []
    ensures HandleNext(s, answer).m == s.m
  {
  }

  lemma BeginFrame(s: Session, full: bool, metadataOnly: bool)
    ensures Begin(s, full, metadataOnly).m == s.m && Begin(s, full, metadataOnly).h == s.h
  {
  }

  lemma EndPassFrame(s: Session, report: Report)
    requires s.pass.Some?
    ensures EndPass(s, report).m == s.m
  {
  }

  lemma StartIsSound(cfg: DQ.Config, clock: DQ.Time)
    requires TotalOrder(cfg.le) && cfg.maxEvents >= 1
    ensures Inv(cfg, Start(clock))
  {
    hide *;
    DQ.StartIsSound(cfg, clock);
    QueueStarts(cfg, clock);
    SessionStarts(clock);
    InvMeans(cfg, Start(clock));
  }

  lemma QueueStarts(cfg: DQ.Config, clock: DQ.Time)
    requires TotalOrder(cfg.le) && cfg.maxEvents >= 1 && DQ.Inv(cfg, DQ.Start(clock))
    ensures QueueInv(cfg, Start(clock).m)
  {
    hide DQ.Inv;
    hide TotalOrder;
  }

  lemma SessionStarts(clock: DQ.Time)
    ensures SessionInv(Start(clock))
  {
  }

  lemma {:induction false} EveryRunKeepsInv(cfg: DQ.Config, s: Session, steps: seq<Step>)
    requires Inv(cfg, s) && Feasible(cfg, s, steps)
    ensures Inv(cfg, Run(cfg, s, steps))
    decreases |steps|
  {
    hide Inv;
    hide Next;
    if steps != [] {
      NextKeepsInv(cfg, s, steps[0]);
      EveryRunKeepsInv(cfg, Next(cfg, s, steps[0]), steps[1..]);
    }
  }

  /** A run given by the states it passes through. */
  lemma {:induction false} RunAlong(cfg: DQ.Config, states: seq<Session>, steps: seq<Step>)
    requires |states| == |steps| + 1
    requires forall i :: 0 <= i < |steps| ==>
               Enabled(states[i], steps[i]) && Next(cfg, states[i], steps[i]) == states[i + 1]
    ensures Feasible(cfg, states[0], steps) && Run(cfg, states[0], steps) == states[|steps|]
    decreases |steps|
  {
    hide Next;
    hide Enabled;
    if steps != [] {
      assert forall i :: 0 <= i < |steps| - 1 ==> steps[1..][i] == steps[i + 1] && states[1..][i] == states[i + 1];
      RunAlong(cfg, states[1..], steps[1..]);
    }
  }

  // ---------- main results ----------

  ghost predicate Reachable(cfg: DQ.Config, s: Session) {
    TotalOrder(cfg.le) && cfg.maxEvents >= 1
    && exists clock, steps :: Feasible(cfg, Start(clock), steps) && s == Run(cfg, Start(clock), steps)
  }

  lemma ReachableIsSound(cfg: DQ.Config, s: Session)
    requires Reachable(cfg, s)
    ensures Inv(cfg, s)
  {
    var clock, steps :| Feasible(cfg, Start(clock), steps) && s == Run(cfg, Start(clock), steps);
    StartIsSound(cfg, clock);
    EveryRunKeepsInv(cfg, Start(clock), steps);
    hide *;
  }

  /** The recovery latch. The incomplete flag falls only at the end of a pass that read contents,
      during which, nested event scans included, no gap was recorded, with every inspected file
      hashed, no queue overflow outstanding and no persistent failure ever recorded. */
  lemma RecoveryLatch(cfg: DQ.Config, s: Session, step: Step)
    requires Reachable(cfg, s) && Enabled(s, step)
    requires s.h.incomplete && !Next(cfg, s, step).h.incomplete
    ensures step.FinishPass? && s.pass.Some? && !s.pass.value.metadataOnly
    ensures s.pass.value.unresolved == {} && !HasGap(step.walk + s.pass.value.issues, false)
    ensures Next(cfg, s, step).h.gaps == s.pass.value.start.gaps
    ensures s.pass.value.start.incomplete && !Next(cfg, s, step).h.persistent && Next(cfg, s, step).h.historical
    ensures !s.m.q.overflowed && !s.ingestFailed
    ensures Heartbeat(false, true) in Next(cfg, s, step).h.records
  {
    hide *;
    ReachableParts(cfg, s);
    if step.FinishPass? {
      FinishIs(cfg, s, step);
      EndPassLatch(s, step.walk, step.special, step.findings, step.observations, step.quarantine);
    } else {
      NextEffect(cfg, s, step);
      FlagStays(s.h, Next(cfg, s, step).h);
    }
  }

  lemma FlagStays(a: Health, b: Health)
    requires Worsens(a, b)
    ensures a.incomplete ==> b.incomplete
  {
  }

  lemma ReachableParts(cfg: DQ.Config, s: Session)
    requires Reachable(cfg, s)
    ensures Inv(cfg, s) && SessionInv(s)
    ensures HealthInv(s.h) && SinkInv(s) && ShutdownInv(s) && WorkInv(s) && CacheInv(s) && PassWorsens(s)
  {
    hide *;
    ReachableIsSound(cfg, s);
    InvMeans(cfg, s);
    SessionParts(s);
  }

  lemma FinishIs(cfg: DQ.Config, s: Session, step: Step)
    requires Enabled(s, step) && step.FinishPass?
    ensures s.pass.Some? && s.pass.value.awaiting.None?
    ensures Next(cfg, s, step) ==
            EndPass(s, PassReport(s.pass.value, step.walk, step.special, step.findings, step.observations,
                                  step.quarantine))
  {
    hide EndPass;
  }

  lemma EndPassLatch(s: Session, walk: seq<ScanIssue>, special: nat, findings: nat,
                     observations: nat, quarantine: seq<QuarantineResult>)
    requires s.pass.Some? && HealthInv(s.h) && PassWorsens(s) && s.h.incomplete
    requires !EndPass(s, PassReport(s.pass.value, walk, special, findings, observations, quarantine)).h.incomplete
    ensures var n := EndPass(s, PassReport(s.pass.value, walk, special, findings, observations, quarantine));
            var p := s.pass.value;
            && !p.metadataOnly && p.unresolved == {} && !HasGap(walk + p.issues, false)
            && n.h.gaps == p.start.gaps && p.start.incomplete && !n.h.persistent && n.h.historical
            && !s.m.q.overflowed && !s.ingestFailed && Heartbeat(false, true) in n.h.records
  {
    var p := s.pass.value;
    var report := PassReport(p, walk, special, findings, observations, quarantine);
    var h := FinishScan(s.h, report, PassKind(p));
    FinishScanEffect(s.h, report, PassKind(p));
    WorsensTrans(p.start, s.h, h);
    SortedIssues(report.issues, false);
    hide FinishScan;
    hide OutcomeOf;
    hide Kept;
    hide HasGap;
    hide IsGap;
    hide SinkState;
  }

  /** The flag at the end of a pass is up if the pass met a gap, or if it was up before and the pass is no
      evidence to the contrary: it read no contents or not everything, the event pipeline is not clean, or
      a gap is persistent or was recorded since the pass began. */
  ghost predicate StaysIncomplete(s: Session, walk: seq<ScanIssue>, special: nat, quarantine: seq<QuarantineResult>)
    requires s.pass.Some?
  {
    var p := s.pass.value;
    || HasGap(walk + p.issues, false) || special > 0 || p.tooLarge > 0
    || (exists r :: r in quarantine && !r.Stored?)
    || (s.h.incomplete
        && (p.metadataOnly || p.unresolved != {} || s.m.q.overflowed || s.ingestFailed || s.h.persistent
            || s.h.generation != p.start.generation))
  }

  lemma EndPassFlag(s: Session, walk: seq<ScanIssue>, special: nat, findings: nat, observations: nat,
                    quarantine: seq<QuarantineResult>)
    requires s.pass.Some? && HealthInv(s.h)
    ensures EndPass(s, PassReport(s.pass.value, walk, special, findings, observations, quarantine)).h.incomplete
            <==> StaysIncomplete(s, walk, special, quarantine)
  {
    var report := PassReport(s.pass.value, walk, special, findings, observations, quarantine);
    FinishScanEffect(s.h, report, PassKind(s.pass.value));
    ScanCosts(s.h, report, PassKind(s.pass.value));
    SortedIssues(report.issues, false);
    hide FinishScan;
    hide Kept;
    hide HasGap;
    hide SinkState;
    hide SinkFollows;
  }

  /** The health after a step that does not end a pass. */
  function HealthAfter(s: Session, step: Step): Health
    requires Enabled(s, step) && !step.FinishPass?
  {
    match step
    case HealthProblem(code, message) => RaiseIssue(s.h, code, Text(message))
    case PipelineCheck => CheckPipeline(s).h
    case FinalCheck => CheckPipeline(s).h
    case BacklogCheck => CheckBacklog(s).h
    case Handle(answer) => HandleNext(s, answer).h
    case Visit(key, fingerprint) => VisitFile(s, key, fingerprint).h
    case Inspect(hash) => InspectFile(s, hash).h
    case JoinIngest(alive) => JoinThread(s, alive).h
    case Beat => Emit(s.h, Heartbeat(BeatFlag(s), false))
    case Finish => Emit(s.h, SessionCompleted)
    case _ => s.h
  }

  lemma NextHealth(cfg: DQ.Config, s: Session, step: Step)
    requires Enabled(s, step) && !step.FinishPass?
    ensures Next(cfg, s, step).h == HealthAfter(s, step)
  {
    hide DQ.Next;
    hide VisitFile;
    hide InspectFile;
    hide CheckPipeline;
    hide CheckBacklog;
    hide HandleNext;
    hide JoinThread;
    hide RaiseIssue;
    hide Emit;
    hide BeatFlag;
  }

  /** Every step but the end of a pass can only worsen health, and only a heartbeat or the end of
      the session touches the sink otherwise. */
  lemma NextEffect(cfg: DQ.Config, s: Session, step: Step)
    requires HealthInv(s.h) && Enabled(s, step) && !step.FinishPass?
    ensures var n := Next(cfg, s, step);
            Worsens(s.h, n.h) && (step.Beat? || step.Finish? || SinkFollows(s.h, n.h))
  {
    NextHealth(cfg, s, step);
    SameHealth(s.h);
    hide Next;
    hide Worsens;
    hide SinkFollows;
    hide HealthInv;
    hide VisitFile;
    hide InspectFile;
    hide CheckPipeline;
    hide CheckBacklog;
    hide HandleNext;
    hide RaiseIssue;
    hide JoinThread;
    match step
    case Handle(answer) => HandleEffect(s, answer);
    case Visit(key, fingerprint) => VisitFrame(s, key, fingerprint); ShrinkWorsens(s.h, key);
    case Inspect(hash) => InspectFrame(s, hash); ShrinkWorsens(s.h, s.pass.value.awaiting.value.0);
    case HealthProblem(code, message) => RaiseIssueEffect(s.h, code, Text(message));
    case JoinIngest(alive) => JoinEffect(s, alive);
    case PipelineCheck => CheckEffect(s);
    case FinalCheck => CheckEffect(s);
    case BacklogCheck => BacklogEffect(s);
    case Beat => EmitWorsens(s.h, Heartbeat(BeatFlag(s), false));
    case Finish => EmitWorsens(s.h, SessionCompleted);
    case _ =>
  }

  lemma EmitWorsens(h: Health, r: Record)
    ensures Worsens(h, Emit(h, r))
  {
  }

  lemma JoinEffect(s: Session, alive: bool)
    requires HealthInv(s.h)
    ensures var h := JoinThread(s, alive).h; Worsens(s.h, h) && SinkFollows(s.h, h)
  {
    RaiseIssueEffect(s.h, WatchEventIngestStopped, Text("alive"));
    SameHealth(s.h);
    hide RaiseIssue;
    hide Worsens;
    hide SinkFollows;
    hide HealthInv;
  }

  lemma SameHealth(h: Health)
    ensures Worsens(h, h) && SinkFollows(h, h)
  {
  }

  lemma HandleEffect(s: Session, answer: PathAnswer)
    requires HealthInv(s.h) && s.todo != []
    ensures var n := HandleNext(s, answer); Worsens(s.h, n.h) && SinkFollows(s.h, n.h)
  {
    ScanPendingEffect(s.h, s.todo[0].key, answer);
    hide ScanPending;
    SameHealth(s.h);
    hide Worsens;
    hide SinkFollows;
    hide HealthInv;
  }

  lemma CheckEffect(s: Session)
    requires HealthInv(s.h)
    ensures var n := CheckPipeline(s); Worsens(s.h, n.h) && SinkFollows(s.h, n.h)
  {
    RaiseIssueEffect(s.h, WatchEventIngestStopped, Text("stopped"));
    RaiseIssueEffect(s.h, WatchEventQueueOverflow, Counted(s.m.q.dropped, 0));
    SameHealth(s.h);
    hide RaiseIssue;
    hide Worsens;
    hide SinkFollows;
    hide HealthInv;
  }

  lemma BacklogEffect(s: Session)
    requires HealthInv(s.h)
    ensures var n := CheckBacklog(s); Worsens(s.h, n.h) && SinkFollows(s.h, n.h)
  {
    RaiseIssueEffect(s.h, WatchEventBacklogUnprocessed, Counted(|s.m.q.raw| + |s.m.q.pending|, 0));
    hide RaiseIssue;
    SameHealth(s.h);
    hide Worsens;
    hide SinkFollows;
    hide HealthInv;
  }

  lemma EndPassEffect(s: Session, walk: seq<ScanIssue>, special: nat, findings: nat,
                      observations: nat, quarantine: seq<QuarantineResult>)
    requires HealthInv(s.h) && s.pass.Some? && PassWorsens(s)
    ensures var n := EndPass(s, PassReport(s.pass.value, walk, special, findings, observations, quarantine));
            && (s.h.historical ==> n.h.historical) && (s.h.persistent ==> n.h.persistent) && s.h.gaps <= n.h.gaps
            && (SinkState(s.h.records) == Degraded && SinkState(n.h.records) == Healthy ==>
                  s.h.incomplete && !n.h.incomplete)
  {
    var report := PassReport(s.pass.value, walk, special, findings, observations, quarantine);
    FinishScanEffect(s.h, report, PassKind(s.pass.value));
    WorsensTrans(s.pass.value.start, s.h, FinishScan(s.h, report, PassKind(s.pass.value)));
    hide FinishScan;
    hide SinkState;
    hide OutcomeOf;
    hide Kept;
  }

  lemma SessionHealth(s: Session)
    requires SessionInv(s)
    ensures HealthInv(s.h) && SinkInv(s) && ShutdownInv(s) && WorkInv(s) && PassWorsens(s)
  {
  }

  lemma SessionParts(s: Session)
    requires SessionInv(s)
    ensures HealthInv(s.h) && SinkInv(s) && ShutdownInv(s) && WorkInv(s) && CacheInv(s) && PassWorsens(s)
  {
  }

  /** Historical and persistent gaps are never forgotten, over any run. */
  lemma {:induction false} GapsAreNeverForgotten(cfg: DQ.Config, s: Session, steps: seq<Step>)
    requires Inv(cfg, s) && Feasible(cfg, s, steps)
    ensures var n := Run(cfg, s, steps);
            (s.h.historical ==> n.h.historical) && (s.h.persistent ==> n.h.persistent && n.h.incomplete)
            && s.h.gaps <= n.h.gaps
    decreases |steps|
  {
    hide QueueInv;
    hide Next;
    SessionHealth(s);
    if steps != [] {
      NextKeepsInv(cfg, s, steps[0]);
      OneStepForgetsNothing(cfg, s, steps[0]);
      hide SessionInv;
      GapsAreNeverForgotten(cfg, Next(cfg, s, steps[0]), steps[1..]);
    }
    hide SessionInv;
    hide SinkInv;
    hide ShutdownInv;
    hide WorkInv;
  }

  lemma OneStepForgetsNothing(cfg: DQ.Config, s: Session, step: Step)
    requires HealthInv(s.h) && PassWorsens(s) && Enabled(s, step)
    ensures var n := Next(cfg, s, step);
            (s.h.historical ==> n.h.historical) && (s.h.persistent ==> n.h.persistent) && s.h.gaps <= n.h.gaps
  {
    if step.FinishPass? {
      EndPassEffect(s, step.walk, step.special, step.findings, step.observations, step.quarantine);
    } else {
      NextEffect(cfg, s, step);
    }
    hide DQ.Next;
    hide EndPass;
    hide SinkFollows;
    hide PassWorsens;
    hide HealthInv;
    if !step.FinishPass? {
      hide Next;
    }
  }

  /** The flag of the final summary. */
  predicate SummaryIncomplete(s: Session) {
    s.h.incomplete || s.h.historical
  }

  /** A session that ended neither interrupted nor incomplete lost nothing that had arrived when it
      took its final telemetry: until then no event was dropped, none was left in the queue, the
      counters balance, and every accepted event is in a delivered record, whose path was scanned or
      was popped while that very file was under inspection. The observer is stopped but may outlive
      its bounded join; the queue is still clean at the very end exactly when no event was received
      after the telemetry. */
  lemma CleanSessionIsComplete(cfg: DQ.Config, s: Session)
    requires Reachable(cfg, s) && s.phase == Ended && !s.interrupted && !SummaryIncomplete(s)
    ensures s.counted.Some?
    ensures var q := s.counted.value.q;
            && q.dropped == 0 && s.m.h.cleared == 0 && q.raw == [] && q.pending == map[]
            && q.received == q.debounced + |s.handled| == |s.counted.value.h.accepted|
    ensures |s.handled| == |s.m.h.deliveries|
    ensures forall i :: 0 <= i < |s.handled| ==>
              s.handled[i].delivery == s.m.h.deliveries[i]
              && (s.handled[i].Scanned? || s.handled[i].current == s.handled[i].delivery.key)
    ensures s.counted.value.h.accepted <= s.m.h.accepted
    ensures forall i: nat :: i < |s.counted.value.h.accepted| ==>
              i < |s.m.h.homes| && s.m.h.homes[i].InDelivery? && s.m.h.homes[i].index < |s.handled|
              && s.m.h.deliveries[s.m.h.homes[i].index].key == s.m.h.accepted[i].key
              && s.m.h.accepted[i].kind in s.m.h.deliveries[s.m.h.homes[i].index].entry.kinds
    ensures s.m.q.raw == [] && s.m.q.pending == map[] && s.m.q.dropped == 0
            <==> s.m.q.received == s.counted.value.q.received
  {
    ReachableIsSound(cfg, s);
    hide Reachable;
    hide DQ.Inv;
    hide TotalOrder;
    SessionHealth(s);
    hide SessionInv;
    hide SinkInv;
    hide PassWorsens;
    EndedFacts(s);
    var a := s.counted.value;
    forall i: nat | i < |a.h.accepted|
      ensures i < |s.m.h.homes| && s.m.h.homes[i].InDelivery? && s.m.h.homes[i].index < |s.handled|
              && s.m.h.deliveries[s.m.h.homes[i].index].key == s.m.h.accepted[i].key
              && s.m.h.accepted[i].kind in s.m.h.deliveries[s.m.h.homes[i].index].entry.kinds
    {
      assert a.h.homes[i] == s.m.h.homes[i];
      HousedInDelivery(cfg, s.m, i);
    }
    hide HealthInv;
    hide WorkInv;
    hide ShutdownInv;
  }

  lemma HousedInDelivery(cfg: DQ.Config, m: DQ.Machine, i: nat)
    requires DQ.Inv(cfg, m) && i < |m.h.homes| && m.h.homes[i].InDelivery?
    ensures i < |m.h.accepted| && m.h.homes[i].index < |m.h.deliveries|
    ensures m.h.deliveries[m.h.homes[i].index].key == m.h.accepted[i].key
    ensures m.h.accepted[i].kind in m.h.deliveries[m.h.homes[i].index].entry.kinds
  {
    assert DQ.Homes(m);
    hide DQ.Inv;
    assert DQ.Housed(m, i);
  }

  lemma EndedFacts(s: Session)
    requires HealthInv(s.h) && WorkInv(s) && ShutdownInv(s)
    requires s.phase == Ended && !s.interrupted && !SummaryIncomplete(s)
    ensures s.counted.Some? && Settled(s.counted.value, s.m)
    ensures |s.handled| == |s.m.h.deliveries|
    ensures forall i :: 0 <= i < |s.handled| ==>
              s.handled[i].delivery == s.m.h.deliveries[i]
              && (s.handled[i].Scanned? || s.handled[i].current == s.handled[i].delivery.key)
  {
    hide Settled;
  }

  lemma DrainedAccounts(cfg: DQ.Config, m: DQ.Machine)
    requires DQ.Inv(cfg, m) && m.q.raw == [] && m.q.pending == map[] && m.q.dropped == 0 && m.h.cleared == 0
    ensures Accounted(m)
  {
    hide DQ.Timing;
    hide DQ.Honest;
    hide DQ.Seen;
    assert DQ.Homes(m);
    forall i: nat | i < |m.h.homes|
      ensures m.h.homes[i].InDelivery? && m.h.homes[i].index < |m.h.deliveries|
    {
      assert DQ.Housed(m, i);
    }
    hide DQ.Housed;
  }

  // ---------- what may happen ----------

  /** What the loop of an idle session may do next: any health check may fail, the pipeline be checked, any
      due paths be taken, any pass but a full inventory begin, a heartbeat be sent, the shutdown begin. */
  lemma IdleMay(s: Session, code: Code, message: string, now: DQ.Time)
    requires Idle(s) && s.m.h.clock <= now
    ensures code != WatchPathUnreadable && code != ScanScopeIncomplete ==> Enabled(s, HealthProblem(code, message))
    ensures Enabled(s, PipelineCheck) && Enabled(s, Pop(now, None)) && Enabled(s, Beat) && Enabled(s, StopObserver)
    ensures Enabled(s, StartPass(false, true)) && Enabled(s, StartPass(false, false)) && Enabled(s, StartPass(true, false))
  {
  }

  /** What a walking pass may meet next: any file, and with it whatever reading it comes to; a heartbeat;
      its end with any result. */
  lemma WalkMay(s: Session, key: Key, fingerprint: Option<Fingerprint>, hash: Hash, end: Step)
    requires s.phase == Running && s.todo == [] && s.pass.Some? && end.FinishPass?
    ensures Enabled(s, Beat)
    ensures s.pass.value.awaiting.None? ==> Enabled(s, Visit(key, fingerprint)) && Enabled(s, end)
    ensures s.pass.value.awaiting.Some?
            && (hash.NotHashed? ==> hash.code != FileFilterFailed && hash.code != FileObserverFailed) ==>
              Enabled(s, Inspect(hash))
  {
  }

  /** What the threads, the user and a path that was taken may do while the session runs or shuts down. */
  lemma OthersMay(s: Session, event: DQ.Event, cut: Cut, answer: PathAnswer)
    requires s.phase != Ended
    ensures s.m.h.clock <= event.observedAt ==> Enabled(s, Observe(event))
    ensures s.m.q.raw != [] ==> Enabled(s, Ingest)
    ensures s.ingestAlive ==> Enabled(s, IngestFails)
    ensures s.phase == Running && s.todo != [] ==> Enabled(s, Handle(answer))
    ensures s.phase == Running && cut.walk == [] && cut.special == 0 && cut.path.None? ==> Enabled(s, Interrupt(cut))
    ensures s.phase == Running && s.pass.Some? && s.todo != [] ==> Enabled(s, Interrupt(cut))
    ensures s.phase == ObserverStopped ==> Enabled(s, JoinIngest(true)) && Enabled(s, JoinIngest(false))
  {
  }

  /** A pass does not hold up events: right after it has dealt with a file, by inventory or by reading it,
      it may take what is due, 32 paths at most, at any later time. */
  lemma PassDrainsEvents(cfg: DQ.Config, s: Session, step: Step, now: DQ.Time)
    requires Enabled(s, step) && s.m.h.clock <= now
    requires || (step.Visit? && s.pass.value.metadataOnly == step.fingerprint.Some?)
             || (step.Inspect? && (step.hash.Hashed? ==> s.pass.value.awaiting.value.1.Some?))
    ensures Enabled(Next(cfg, s, step), Pop(now, Some(32)))
  {
    hide DQ.Next;
  }

  /** The end of a session is its last record, and stops the sink. */
  lemma EndStopsSink(cfg: DQ.Config, s: Session)
    requires Enabled(s, Finish)
    ensures var n := Next(cfg, s, Finish);
            && n.phase == Ended && n.h == s.h.(records := s.h.records + [SessionCompleted])
            && SinkState(n.h.records) == Stopped
  {
    hide *;
    FinalStepsAre(cfg, s);
    SinkStops(s.h);
  }

  /** A file that could not be read has no entry in the live cache. */
  lemma UnreadHasNoEntry(cfg: DQ.Config, s: Session, step: Step)
    requires Enabled(s, step) && step.Inspect? && !step.hash.Hashed?
    ensures s.pass.value.awaiting.value.0 !in Next(cfg, s, step).h.snapshot
  {
    hide DQ.Next;
  }

  // ---------- what is delivered is scanned ----------

  function Handles(answers: seq<PathAnswer>): seq<Step> {
    seq(|answers|, i requires 0 <= i < |answers| => Handle(answers[i]))
  }

  /** Outside a pass everything delivered is scanned in turn. */
  lemma {:induction false} AllScanned(cfg: DQ.Config, s: Session, answers: seq<PathAnswer>)
    requires s.phase == Running && s.pass.None? && |answers| == |s.todo|
    ensures Feasible(cfg, s, Handles(answers))
    ensures var n := Run(cfg, s, Handles(answers));
            && Idle(n) && |n.handled| == |s.handled| + |s.todo| && s.handled == n.handled[..|s.handled|]
            && forall i :: 0 <= i < |s.todo| ==> n.handled[|s.handled| + i] == Scanned(s.todo[i])
    decreases |answers|
  {
    var steps := Handles(answers);
    if answers == [] {
      assert steps == [];
    } else {
      var n := Next(cfg, s, steps[0]);
      assert steps[0] == Handle(answers[0]) && steps[1..] == Handles(answers[1..]);
      assert n == s.(h := n.h, todo := s.todo[1..], handled := s.handled + [Scanned(s.todo[0])]) by { hide ScanPending; }
      AllScanned(cfg, n, answers[1..]);
      hide Next;
      var end := Run(cfg, s, steps);
      assert end == Run(cfg, n, steps[1..]);
      forall i | 0 <= i < |s.todo| ensures end.handled[|s.handled| + i] == Scanned(s.todo[i]) {
        if i > 0 {
          assert n.todo[i - 1] == s.todo[i];
        } else {
          assert end.handled[..|n.handled|][|s.handled|] == n.handled[|s.handled|];
        }
      }
    }
  }

  /** No path that is pending stays unscanned: in an idle session, once the clock is past the longest delay
      after its first event, taking the due paths and handling them is possible, whatever is found there,
      and scans the path. */
  lemma DuePathIsScanned(cfg: DQ.Config, s: Session, key: Key, now: DQ.Time, answers: seq<PathAnswer>)
    requires Reachable(cfg, s) && Idle(s) && key in s.m.q.pending && s.m.h.clock <= now
    requires s.m.q.pending[key].firstSeenAt + 2.0 <= now && s.m.q.pending[key].firstSeenAt + cfg.debounce <= now
    requires |answers| == |DQ.DueKeys(cfg, s.m.q, now, None)|
    ensures var steps := [Pop(now, None)] + Handles(answers);
            && Feasible(cfg, s, steps)
            && var n := Run(cfg, s, steps);
               && Idle(n) && |n.handled| >= |s.handled|
               && exists i :: |s.handled| <= i < |n.handled| && n.handled[i].Scanned? && n.handled[i].delivery.key == key
  {
    hide *;
    ReachableIsSound(cfg, s);
    InvMeans(cfg, s);
    QueueIsSound(cfg, s.m);
    var keys := DQ.DueKeys(cfg, s.m.q, now, None);
    PopIsEnabled(cfg, s, now);
    DQ.TimedEntry(cfg, s.m, key);
    DQ.DueKeysAreDue(cfg, s.m.q, now, None);
    DQ.DueByThen(cfg, s.m, key, now, None);
    DQ.DueArePending(cfg, s.m.q, now, None, keys);
    DQ.PopHands(cfg, s.m, now, None, keys);
    DQ.HandIs(s.m.q, keys, now);
    TakenIs(cfg, s, now, DQ.Hand(s.m.q, keys, now));
    var t := Take(cfg, s, now, None);
    AllScanned(cfg, t, answers);
    PopThenHandle(cfg, s, now, t, Handles(answers));
    var n := Run(cfg, t, Handles(answers));
    var i :| 0 <= i < |keys| && keys[i] == key;
    assert n.handled[|t.handled| + i] == Scanned(t.todo[i]);
  }

  lemma PopThenHandle(cfg: DQ.Config, s: Session, now: DQ.Time, t: Session, rest: seq<Step>)
    requires Enabled(s, Pop(now, None)) && t == Next(cfg, s, Pop(now, None)) && Feasible(cfg, t, rest)
    ensures Feasible(cfg, s, [Pop(now, None)] + rest)
    ensures Run(cfg, s, [Pop(now, None)] + rest) == Run(cfg, t, rest)
  {
    hide Next;
    hide Enabled;
    assert ([Pop(now, None)] + rest)[1..] == rest;
  }

  lemma PopIsEnabled(cfg: DQ.Config, s: Session, now: DQ.Time)
    requires Idle(s) && s.m.h.clock <= now
    ensures DQ.Enabled(s.m, DQ.PopStep(now, None)) && s.phase == Running && s.pass.None?
    ensures Enabled(s, Pop(now, None)) && Next(cfg, s, Pop(now, None)) == Take(cfg, s, now, None)
  {
    hide DQ.Pop;
  }

  lemma TakenIs(cfg: DQ.Config, s: Session, now: DQ.Time, hand: seq<DQ.Delivery>)
    requires DQ.Enabled(s.m, DQ.PopStep(now, None))
    requires DQ.Pop(cfg, s.m, now, None).h.deliveries == s.m.h.deliveries + hand
    ensures var t := Take(cfg, s, now, None);
            t == s.(m := t.m, todo := hand)
  {
    hide DQ.Pop;
  }

  /** The live cache skips a file exactly when its cached fingerprint is its current one; a full
      pass skips none, and an inventory reads none. */
  lemma SkipsExactlyUnchanged(cfg: DQ.Config, s: Session, key: Key, fingerprint: Option<Fingerprint>)
    requires Reachable(cfg, s) && Enabled(s, Visit(key, fingerprint)) && !s.pass.value.metadataOnly
    ensures var n := Next(cfg, s, Visit(key, fingerprint)).pass.value;
            (n.awaiting == Some((key, fingerprint))) <==>
              (s.pass.value.full || fingerprint.None?
               || key !in s.h.snapshot || s.h.snapshot[key] != fingerprint.value)
    ensures var n := Next(cfg, s, Visit(key, fingerprint)).pass.value;
            n.awaiting.None? ==> key in n.current && n.current[key] == fingerprint.value
  {
  }

  /** At the end of a pass the installed cache holds only files of that pass under the fingerprints
      the walk reported, each inventoried or hashed under that fingerprint at some time; old and
      new cache never shared a key. */
  lemma InstalledCacheIsBacked(cfg: DQ.Config, s: Session, step: Step)
    requires Reachable(cfg, s) && Enabled(s, step) && step.FinishPass?
    ensures var n := Next(cfg, s, step);
            && n.h.snapshot == s.pass.value.current
            && n.h.snapshot.Keys !! s.h.snapshot.Keys
            && forall k :: k in n.h.snapshot ==>
                 (k, Some(n.h.snapshot[k])) in s.pass.value.visited && Backed(n.evidence, k, n.h.snapshot[k])
  {
    hide *;
    ReachableParts(cfg, s);
    FinishIs(cfg, s, step);
    CurrentIsBacked(s);
    PassInstalls(cfg, s, step);
  }

  lemma PassInstalls(cfg: DQ.Config, s: Session, step: Step)
    requires Enabled(s, step) && step.FinishPass?
    ensures var n := Next(cfg, s, step);
            n.h.snapshot == s.pass.value.current && n.evidence == s.evidence && n.pass.None?
  {
    hide FinishScan;
    hide Recovers;
  }

  lemma CurrentIsBacked(s: Session)
    requires CacheInv(s) && s.pass.Some?
    ensures var p := s.pass.value;
            && p.current.Keys !! s.h.snapshot.Keys
            && forall k :: k in p.current ==>
                 (k, Some(p.current[k])) in p.visited && Backed(s.evidence, k, p.current[k])
  {
  }

  /** At the end of any pass every file its walk reported is accounted for: it could not be read,
      it is a retained issue, an inventory recorded it, or its content was read now or was left to
      the cache, which had it under this very fingerprint when the pass began. A full pass leaves
      nothing to the cache. */
  lemma PassCoversEveryFile(cfg: DQ.Config, s: Session, step: Step, key: Key, fingerprint: Option<Fingerprint>)
    requires Reachable(cfg, s) && Enabled(s, step) && step.FinishPass?
    requires (key, fingerprint) in s.pass.value.visited
    ensures var p := s.pass.value;
            || key in p.unresolved
            || (fingerprint.None? && exists i :: i in step.walk + p.issues && i.key == key && IsGap(i, false))
            || (fingerprint.Some? && p.metadataOnly && Backed(s.evidence, key, fingerprint.value))
            || (fingerprint.Some? && !p.metadataOnly && (key, fingerprint.value) in p.hashedNow
                && WasRead(s.evidence, key, fingerprint.value))
            || (fingerprint.Some? && !p.metadataOnly && !p.full && (key, fingerprint.value) in p.skipped
                && (key, fingerprint.value) in p.start.snapshot.Items && Backed(s.evidence, key, fingerprint.value))
  {
    hide *;
    ReachableParts(cfg, s);
    FinishIs(cfg, s, step);
    CoveredAtEnd(s, key, fingerprint);
    var p := s.pass.value;
    assert forall i :: i in p.issues ==> i in step.walk + p.issues;
  }

  lemma CoveredAtEnd(s: Session, key: Key, fingerprint: Option<Fingerprint>)
    requires CacheInv(s) && s.pass.Some? && s.pass.value.awaiting.None? && (key, fingerprint) in s.pass.value.visited
    ensures var p := s.pass.value;
            || key in p.unresolved
            || (fingerprint.None? && exists i :: i in p.issues && i.key == key && IsGap(i, false))
            || (fingerprint.Some? && p.metadataOnly && Backed(s.evidence, key, fingerprint.value))
            || (fingerprint.Some? && !p.metadataOnly && (key, fingerprint.value) in p.hashedNow
                && WasRead(s.evidence, key, fingerprint.value))
            || (fingerprint.Some? && !p.metadataOnly && !p.full && (key, fingerprint.value) in p.skipped
                && (key, fingerprint.value) in p.start.snapshot.Items && Backed(s.evidence, key, fingerprint.value))
  {
    assert Covered(s.evidence, s.pass.value, key, fingerprint);
    hide Backed;
    hide WasRead;
    hide IsGap;
  }

  /** A pass that restores health left nothing out: each walked file was read now, or left to the
      cache of a cached pass. */
  lemma RecoveringPassCovers(cfg: DQ.Config, s: Session, step: Step, key: Key, fingerprint: Option<Fingerprint>)
    requires Reachable(cfg, s) && Enabled(s, step)
    requires s.h.incomplete && !Next(cfg, s, step).h.incomplete
    requires s.pass.Some? && (key, fingerprint) in s.pass.value.visited
    ensures fingerprint.Some?
    ensures (key, fingerprint.value) in s.pass.value.hashedNow
            || (!s.pass.value.full && (key, fingerprint.value) in s.pass.value.skipped)
  {
    hide *;
    RecoveryLatch(cfg, s, step);
    PassCoversEveryFile(cfg, s, step, key, fingerprint);
    GapMeans(step.walk + s.pass.value.issues, false);
  }

  /** Any issue of a pass that is a gap counts when the pass ends: both flags are up, and the generation
      has moved. */
  lemma PassGapCounts(cfg: DQ.Config, s: Session, step: Step, i: ScanIssue)
    requires Reachable(cfg, s) && Enabled(s, step) && step.FinishPass?
    requires i in step.walk + s.pass.value.issues && IsGap(i, false)
    ensures var h := Next(cfg, s, step).h;
            h.incomplete && h.historical && h.gaps > s.h.gaps && h.generation > s.h.generation
  {
    ReachableParts(cfg, s);
    FinishIs(cfg, s, step);
    hide Reachable;
    hide Next;
    hide Enabled;
    hide HealthInv;
    var p := s.pass.value;
    var report := PassReport(p, step.walk, step.special, step.findings, step.observations, step.quarantine);
    GapIssueCounts(s.h, report, PassKind(p), i);
    SortedIssues(report.issues, false);
    GapMeans(report.issues, false);
    PassStartsBefore(s, report);
    hide FinishScan;
    hide Kept;
    hide IsGap;
    hide HasGap;
    hide PassKind;
  }

  lemma PassStartsBefore(s: Session, report: Report)
    requires s.pass.Some? && HealthInv(s.h) && PassWorsens(s)
    ensures s.pass.value.start.generation <= s.h.generation
  {
  }

  /** A pass that met disappearances only, its quarantine finished, changes no flag, except that it may
      lower the recoverable one; it installs the cache it has collected. */
  lemma PassDisappearances(cfg: DQ.Config, s: Session, step: Step)
    requires Reachable(cfg, s) && Enabled(s, step) && step.FinishPass?
    requires !HasGap(step.walk + s.pass.value.issues, false) && step.special == 0 && s.pass.value.tooLarge == 0
    requires forall r :: r in step.quarantine ==> r.Stored?
    ensures var h := Next(cfg, s, step).h;
            && h == s.h.(incomplete := h.incomplete, snapshot := s.pass.value.current, records := h.records)
            && (h.incomplete ==> s.h.incomplete)
  {
    FinishIs(cfg, s, step);
    hide Reachable;
    hide Next;
    hide Enabled;
    var p := s.pass.value;
    var report := PassReport(p, step.walk, step.special, step.findings, step.observations, step.quarantine);
    DisappearancesAreNoGap(s.h, report, PassKind(p));
    hide FinishScan;
    hide Recovers;
    hide HasGap;
  }

  /** A delivered path that is passed over is one that the running pass itself accounts for: it has just
      taken it into its new cache, failed to read it, or is about to read it. */
  lemma PassedOverIsAccountedFor(cfg: DQ.Config, s: Session, step: Step)
    requires Reachable(cfg, s) && Enabled(s, step) && step.Handle?
    requires var n := Next(cfg, s, step); |n.handled| > 0 && n.handled[|n.handled| - 1].UnderInspection?
    ensures s.pass.Some? && s.todo != []
    ensures var p, key := s.pass.value, s.todo[0].key;
            key in p.current || key in p.unresolved || p.awaiting == Some((key, None))
  {
    hide *;
    ReachableParts(cfg, s);
    PassedOverAt(cfg, s, step);
    PassIsCounted(s);
    CountedAt(s.pass.value);
  }

  lemma PassedOverAt(cfg: DQ.Config, s: Session, step: Step)
    requires Enabled(s, step) && step.Handle?
    requires var n := Next(cfg, s, step); |n.handled| > 0 && n.handled[|n.handled| - 1].UnderInspection?
    ensures s.todo != [] && s.pass.Some? && s.pass.value.at == Some(s.todo[0].key)
  {
    hide ScanPending;
  }

  lemma CountedAt(p: Pass)
    requires PassCounts(p)
    ensures p.at.Some? ==> p.at.value in p.current || p.at.value in p.unresolved || p.awaiting == Some((p.at.value, None))
  {
    hide HasGap;
  }

  lemma PassIsCounted(s: Session)
    requires CacheInv(s) && s.pass.Some?
    ensures PassCounts(s.pass.value)
  {
    hide PassKeys;
    hide PassCovered;
    hide PassSkipped;
    hide BackedMap;
    hide PassCounts;
  }

  /** A cached pass reports that nothing has changed exactly when it met no gap and read no file. */
  lemma NoChangesMeansNothingRead(cfg: DQ.Config, s: Session, step: Step)
    requires Reachable(cfg, s) && Enabled(s, step) && step.FinishPass?
    requires !s.pass.value.metadataOnly && !s.pass.value.full
    ensures var p, records := s.pass.value, Next(cfg, s, step).h.records;
            |s.h.records| <= |records|
            && (ReconciliationCompleted(NoMetadataChanges) in records[|s.h.records|..] <==>
                  p.hashedNow == {} && !HasGap(step.walk + p.issues, false) && step.special == 0 && p.tooLarge == 0)
  {
    hide *;
    ReachableParts(cfg, s);
    FinishIs(cfg, s, step);
    PassIsCounted(s);
    UnchangedReport(s, PassReport(s.pass.value, step.walk, step.special, step.findings, step.observations, step.quarantine));
    ReadNothing(s.pass.value, step.walk, step.special, step.findings, step.observations, step.quarantine);
  }

  lemma UnchangedReport(s: Session, report: Report)
    requires s.pass.Some? && !s.pass.value.metadataOnly && !s.pass.value.full
    ensures var records := EndPass(s, report).h.records;
            |s.h.records| <= |records|
            && (ReconciliationCompleted(NoMetadataChanges) in records[|s.h.records|..] <==>
                  report.hashed == 0 && !Uninspected(report, Reconciliation))
  {
    assert PassKind(s.pass.value) == Reconciliation;
    ScanIsReportedAs(s.h, report, Reconciliation);
    OnlyReport(s, report, ReconciliationCompleted(NoMetadataChanges));
    hide EndPass;
    hide FinishScan;
    hide Uninspected;
  }

  /** The only completed scan that the end of a pass records is its own. */
  lemma OnlyReport(s: Session, report: Report, r: Record)
    requires s.pass.Some? && !r.Superseded? && !r.HealthIssue? && !r.Heartbeat?
    ensures var records, h := EndPass(s, report).h.records, FinishScan(s.h, report, PassKind(s.pass.value));
            && |s.h.records| <= |records| && h.records != []
            && (r in records[|s.h.records|..] <==> h.records[|h.records| - 1] == r)
  {
    var h := FinishScan(s.h, report, PassKind(s.pass.value));
    ScanReportsOnce(s.h, report, PassKind(s.pass.value));
    EndPassRecords(s, report, h);
    hide EndPass;
    hide FinishScan;
    hide PassKind;
    var records := EndPass(s, report).h.records;
    assert records[|s.h.records|..][|h.records| - 1 - |s.h.records|] == h.records[|h.records| - 1];
  }

  lemma ReadNothing(p: Pass, walk: seq<ScanIssue>, special: nat, findings: nat, observations: nat,
                    quarantine: seq<QuarantineResult>)
    requires PassCounts(p) && !p.metadataOnly
    ensures var report := PassReport(p, walk, special, findings, observations, quarantine);
            report.hashed == 0 && !Uninspected(report, Reconciliation) <==>
            p.hashedNow == {} && !HasGap(walk + p.issues, false) && special == 0 && p.tooLarge == 0
  {
    assert forall i :: i in p.issues ==> i in walk + p.issues;
    hide IsGap;
  }

  /** A full pass reports rule matches exactly if it met no gap and there are findings, and observations for
      review exactly if there are those and no findings. */
  lemma RescanIsReportedAs(cfg: DQ.Config, s: Session, step: Step)
    requires Reachable(cfg, s) && Enabled(s, step) && step.FinishPass? && s.pass.value.full
    ensures var p, records := s.pass.value, Next(cfg, s, step).h.records;
            var whole := !HasGap(step.walk + p.issues, false) && step.special == 0 && p.tooLarge == 0;
            && |s.h.records| <= |records|
            && (ScanCompleted(RuleMatches) in records[|s.h.records|..] <==> whole && step.findings > 0)
            && (ScanCompleted(ReviewObservations) in records[|s.h.records|..] <==>
                  whole && step.findings == 0 && step.observations > 0)
            && (ScanCompleted(Incomplete) in records[|s.h.records|..] <==> !whole)
  {
    hide *;
    ReachableParts(cfg, s);
    FinishIs(cfg, s, step);
    FullReadsContents(s);
    RescanReport(s, step.walk, step.special, step.findings, step.observations, step.quarantine);
  }

  lemma FullReadsContents(s: Session)
    requires CacheInv(s) && s.pass.Some? && s.pass.value.full
    ensures !s.pass.value.metadataOnly
  {
    hide PassCovered;
    hide PassSkipped;
    hide PassCounts;
    hide BackedMap;
  }

  lemma RescanReport(s: Session, walk: seq<ScanIssue>, special: nat, findings: nat, observations: nat,
                     quarantine: seq<QuarantineResult>)
    requires s.pass.Some? && s.pass.value.full && !s.pass.value.metadataOnly
    ensures var p := s.pass.value;
            var records := EndPass(s, PassReport(p, walk, special, findings, observations, quarantine)).h.records;
            var whole := !HasGap(walk + p.issues, false) && special == 0 && p.tooLarge == 0;
            && |s.h.records| <= |records|
            && (ScanCompleted(RuleMatches) in records[|s.h.records|..] <==> whole && findings > 0)
            && (ScanCompleted(ReviewObservations) in records[|s.h.records|..] <==>
                  whole && findings == 0 && observations > 0)
            && (ScanCompleted(Incomplete) in records[|s.h.records|..] <==> !whole)
  {
    var report := PassReport(s.pass.value, walk, special, findings, observations, quarantine);
    assert PassKind(s.pass.value) == FullRescan;
    ScanIsReportedAs(s.h, report, FullRescan);
    OnlyReport(s, report, ScanCompleted(RuleMatches));
    OnlyReport(s, report, ScanCompleted(ReviewObservations));
    OnlyReport(s, report, ScanCompleted(Incomplete));
    hide EndPass;
    hide FinishScan;
    hide HasGap;
  }

  lemma EndPassRecords(s: Session, report: Report, h: Health)
    requires s.pass.Some? && h == FinishScan(s.h, report, PassKind(s.pass.value))
    ensures var records := EndPass(s, report).h.records;
            records == h.records || records == h.records + [Heartbeat(false, true)]
  {
    hide FinishScan;
    hide Recovers;
  }

  /** What the pipeline check does: a failed ingest thread is raised and leaves the queue alone; else an
      overflow is raised with the number of events dropped, and cleared. */
  lemma PipelineCheckIs(cfg: DQ.Config, s: Session)
    requires Reachable(cfg, s)
    ensures var n := CheckPipeline(s);
            && n.m.q.raw == s.m.q.raw && n.m.q.pending == s.m.q.pending && n.m.h.deliveries == s.m.h.deliveries
            && (s.ingestFailed ==> n.m == s.m && n.h == RaiseIssue(s.h, WatchEventIngestStopped, Text("stopped")))
            && (!s.ingestFailed && s.m.q.dropped > 0 ==>
                  && n.h == RaiseIssue(s.h, WatchEventQueueOverflow, Counted(s.m.q.dropped, 0))
                  && n.m.q.dropped == 0 && !n.m.q.overflowed && n.m.h.cleared == s.m.h.cleared + s.m.q.dropped)
            && (!s.ingestFailed && s.m.q.dropped == 0 ==> n == s)
  {
    ReachableIsSound(cfg, s);
    hide Reachable;
    hide SessionInv;
    QueueIsSound(cfg, s.m);
    hide QueueInv;
    OverflowMeansDropped(cfg, s.m);
    hide DQ.Inv;
    hide TotalOrder;
    hide RaiseIssue;
  }

  /** A degraded sink turns healthy only in the step that lowers the watcher's own flag. */
  lemma HealsOnlyByRecovery(cfg: DQ.Config, s: Session, step: Step)
    requires HealthInv(s.h) && PassWorsens(s) && Enabled(s, step)
    requires SinkState(s.h.records) == Degraded && SinkState(Next(cfg, s, step).h.records) == Healthy
    ensures s.h.incomplete && !Next(cfg, s, step).h.incomplete
  {
    hide SinkState;
    hide HealthInv;
    hide PassWorsens;
    hide Worsens;
    if step.FinishPass? {
      EndPassEffect(s, step.walk, step.special, step.findings, step.observations, step.quarantine);
      hide EndPass;
    } else if step.Beat? {
      HealthyHeartbeat(s.h.records, BeatFlag(s), false);
    } else if step.Finish? {
      SinkAfter(s.h.records, SessionCompleted);
    } else {
      NextEffect(cfg, s, step);
      hide Next;
      hide Enabled;
    }
  }

  /** The sink never invents degradation, turns healthy from degraded only in the step that lowers
      the watcher's own flag, and is healthy after a heartbeat only if the flag it carried was false. */
  lemma SinkFollowsWatcher(cfg: DQ.Config, s: Session, step: Step)
    requires Reachable(cfg, s) && Enabled(s, step)
    ensures SinkState(s.h.records) == Degraded ==> s.h.incomplete || s.m.q.overflowed || s.ingestFailed
    ensures SinkState(s.h.records) == Degraded && SinkState(Next(cfg, s, step).h.records) == Healthy
            ==> s.h.incomplete && !Next(cfg, s, step).h.incomplete
    ensures step.Beat? && SinkState(Next(cfg, s, step).h.records) == Healthy
            ==> !s.h.incomplete && (s.pass.Some? ==> !s.m.q.overflowed && !s.ingestFailed)
  {
    ReachableIsSound(cfg, s);
    hide Reachable;
    hide QueueInv;
    SessionHealth(s);
    hide SessionInv;
    hide ShutdownInv;
    hide WorkInv;
    hide HealthInv;
    hide PassWorsens;
    hide SinkState;
    if SinkState(s.h.records) == Degraded && SinkState(Next(cfg, s, step).h.records) == Healthy {
      HealsOnlyByRecovery(cfg, s, step);
    }
    BeatShowsFlag(cfg, s, step);
    hide Next;
    hide Enabled;
  }

  lemma BeatShowsFlag(cfg: DQ.Config, s: Session, step: Step)
    requires Enabled(s, step)
    ensures step.Beat? && SinkState(Next(cfg, s, step).h.records) == Healthy
            ==> !s.h.incomplete && (s.pass.Some? ==> !s.m.q.overflowed && !s.ingestFailed)
  {
  }
}
