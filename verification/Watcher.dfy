/** The watcher, one reconciliation pass and the evidence sink as the objects the code mutates. */
module Watcher {
  import opened Paths
  import opened WatchHealth
  import WS = WatchSession

  class WatchEvidenceSink {
    var operationalState: OperationalState
    ghost var seen: seq<Record>

    ghost predicate Valid()
      reads this
    {
      operationalState == SinkState(seen)
    }

    constructor ()
      ensures Valid() && seen == []
    {
      operationalState := Starting;
      seen := [];
    }

    method Record(r: Record)
      requires Valid()
      modifies this
      ensures Valid() && seen == old(seen) + [r]
    {
      SinkAfter(seen, r);
      seen := seen + [r];
      match r
      case Superseded => return;
      case SessionStarted => operationalState := InventoryingMetadata;
      case HealthIssue(_, _) => operationalState := Degraded;
      case ScanCompleted(outcome) =>
        if outcome == Incomplete { operationalState := Degraded; }
      case ReconciliationCompleted(outcome) =>
        if outcome == Incomplete { operationalState := Degraded; }
      case MetadataInventoryCompleted(outcome) =>
        if outcome == MetadataInventoryComplete {
          if operationalState != Degraded { operationalState := Healthy; }
        } else {
          operationalState := Degraded;
        }
      case Heartbeat(incomplete, inventoryComplete) =>
        if incomplete { operationalState := Degraded; }
        else if inventoryComplete { operationalState := Healthy; }
      case SessionCompleted => operationalState := Stopped;
    }
  }

  class ForegroundProtectionWatcher {
    const sink: WatchEvidenceSink
    var operationalIncomplete: bool
    var historicalIncomplete: bool
    var persistentIncomplete: bool
    var generation: nat
    var issueKeys: set<(Code, Message)>
    var snapshot: map<Key, Fingerprint>
    ghost var gaps: nat

    ghost function State(): Health
      reads this, sink
    {
      Health(operationalIncomplete, historicalIncomplete, persistentIncomplete, generation,
             issueKeys, sink.seen, snapshot, gaps)
    }

    ghost predicate Valid()
      reads this, sink
    {
      sink.Valid()
    }

    constructor (sink: WatchEvidenceSink)
      requires sink.Valid() && sink.seen == []
      modifies sink
      ensures Valid() && this.sink == sink && State() == FRESH
    {
      this.sink := sink;
      operationalIncomplete, historicalIncomplete, persistentIncomplete := false, false, false;
      generation, gaps := 0, 0;
      issueKeys, snapshot := {}, map[];
      new;
      sink.Record(SessionStarted);
    }

    method RaiseHealthIssue(code: Code, message: Message)
      requires Valid()
      modifies this, sink
      ensures Valid() && State() == RaiseIssue(old(State()), code, message)
    {
      hide SinkState;
      hide Sanitize;
      operationalIncomplete := true;
      historicalIncomplete := true;
      generation := generation + 1;
      gaps := gaps + 1;
      if !Recoverable(code) {
        persistentIncomplete := true;
      }
      var key := (code, Sanitize(message));
      if key in issueKeys {
        return;
      }
      issueKeys := issueKeys + {key};
      sink.Record(HealthIssue(code, key.1));
    }

    lemma CacheIsShown()
      ensures State().snapshot == snapshot
    {
    }

    lemma FlagIsShown()
      ensures State().incomplete == operationalIncomplete
    {
    }

    /** Takes one entry out of the live cache. */
    method Forget(key: Key)
      modifies this`snapshot
      ensures Valid() == old(Valid())
      ensures State() == old(State()).(snapshot := old(State()).snapshot - {key})
    {
      snapshot := snapshot - {key};
    }

    /** Evicts the files named by issues from the live cache. */
    method EvictAll(issues: seq<ScanIssue>)
      modifies this`snapshot
      ensures State() == Evict(old(State()), issues)
    {
      for i := 0 to |issues|
        invariant State() == Evict(old(State()), issues[..i])
      {
        assert issues[..i + 1][..i] == issues[..i];
        snapshot := snapshot - {issues[i].key};
      }
      assert issues[..|issues|] == issues;
    }

    /** Separates confirmed disappearances from the issues that count. */
    static method PartitionIssues(issues: seq<ScanIssue>, allowVanishedRoot: bool)
      returns (retained: seq<ScanIssue>, vanished: seq<ScanIssue>)
      ensures retained == Kept(issues, allowVanishedRoot) && vanished == Gone(issues, allowVanishedRoot)
      ensures forall i :: i in retained <==> i in issues && IsGap(i, allowVanishedRoot)
      ensures forall i :: i in vanished <==> i in issues && !IsGap(i, allowVanishedRoot)
    {
      SortedIssues(issues, allowVanishedRoot);
      retained, vanished := [], [];
      for i := 0 to |issues|
        invariant retained == Kept(issues[..i], allowVanishedRoot)
        invariant vanished == Gone(issues[..i], allowVanishedRoot)
      {
        assert issues[..i + 1][..i] == issues[..i];
        if Vanished(issues[i], allowVanishedRoot) {
          vanished := vanished + [issues[i]];
        } else {
          retained := retained + [issues[i]];
        }
      }
      assert issues[..|issues|] == issues;
    }

    /** Disappearances cost only their cache entries; every other issue is a gap. */
    method NoteIssues(retained: seq<ScanIssue>, vanished: seq<ScanIssue>)
      requires Valid()
      modifies this, sink
      ensures Valid() && State() == NoteKept(NoteGone(old(State()), vanished), retained)
    {
      hide SinkState;
      EvictAll(vanished);
      if vanished != [] {
        sink.Record(Superseded);
      }
      assert State() == NoteGone(old(State()), vanished);
      hide NoteGone;
      if retained != [] {
        operationalIncomplete := true;
        historicalIncomplete := true;
        generation := generation + 1;
        gaps := gaps + 1;
        EvictAll(retained);
      }
    }

    /** The tail of `_scan_paths`: sort the issues, raise the flags, note the quarantine, report. */
    method FinishScanning(report: Report, kind: ScanKind)
      requires Valid()
      modifies this, sink
      ensures Valid() && State() == FinishScan(old(State()), report, kind)
    {
      hide *;
      FinishScanSteps(State(), report, kind);
      var retained, vanished := PartitionIssues(report.issues, kind.EventScan?);
      NoteIssues(retained, vanished);
      NoteScopeGap(report.special, report.tooLarge);
      NoteResults(report.quarantine);
      EmitCompleted(Completed(kind, OutcomeOf(report, retained, kind)));
    }

    method EmitCompleted(r: Record)
      requires Valid()
      modifies sink
      ensures Valid() && State() == Emit(old(State()), r)
    {
      sink.Record(r);
    }

    method NoteScopeGap(special: nat, tooLarge: nat)
      requires Valid()
      modifies this, sink
      ensures Valid() && State() == NoteScope(old(State()), special, tooLarge)
    {
      hide RaiseIssue;
      if special > 0 || tooLarge > 0 {
        RaiseHealthIssue(ScanScopeIncomplete, Counted(special, tooLarge));
      }
    }

    method NoteResults(results: seq<QuarantineResult>)
      requires Valid()
      modifies this
      ensures Valid() && State() == NoteQuarantine(old(State()), results)
    {
      for i := 0 to |results|
        invariant Valid() && State() == NoteQuarantine(old(State()), results[..i])
      {
        assert results[..i + 1][..i] == results[..i];
        if !results[i].Stored? {
          operationalIncomplete := true;
          historicalIncomplete := true;
          persistentIncomplete := true;
          gaps := gaps + 1;
        }
      }
      assert results[..|results|] == results;
    }

    method ScanPendingPath(key: Key, answer: PathAnswer)
      requires Valid()
      modifies this, sink
      ensures Valid() && State() == ScanPending(old(State()), key, answer)
    {
      match answer
      case OutOfScope => return;
      case PathGone =>
        snapshot := snapshot - {key};
        sink.Record(Superseded);
      case PathUnreadable(m) =>
        snapshot := snapshot - {key};
        RaiseHealthIssue(WatchPathUnreadable, Text(m));
      case OtherFilesystem(m) => RaiseHealthIssue(WatchCrossFilesystemSkipped, Text(m));
      case PathScanned(uninspected, report) =>
        snapshot := snapshot - (set k | k in uninspected);
        FinishScanning(report, EventScan);
    }
  }

  lemma FinishScanSteps(h: Health, report: Report, kind: ScanKind)
    ensures var kept := Kept(report.issues, kind.EventScan?);
            var noted := NoteKept(NoteGone(h, Gone(report.issues, kind.EventScan?)), kept);
            FinishScan(h, report, kind) ==
            Emit(NoteQuarantine(NoteScope(noted, report.special, report.tooLarge), report.quarantine),
                 Completed(kind, OutcomeOf(report, kept, kind)))
  {
  }

  /** What the two callbacks do to the state of a pass. */
  lemma VisitEffect(s: WS.Session, key: Key, fingerprint: Option<Fingerprint>)
    requires s.pass.Some?
    ensures var n, p := WS.VisitFile(s, key, fingerprint), s.pass.value;
            && n.pass.Some?
            && var q := n.pass.value;
               var same := fingerprint.Some? && key in s.h.snapshot && s.h.snapshot[key] == fingerprint.value;
               && n.h == (if fingerprint.None? then s.h else s.h.(snapshot := s.h.snapshot - {key}))
               && q.full == p.full && q.metadataOnly == p.metadataOnly && q.start == p.start
               && q.unresolved == p.unresolved && q.tooLarge == p.tooLarge && q.hashed == p.hashed
               && q.current == (if fingerprint.Some? && (p.metadataOnly || (!p.full && same))
                                then p.current[key := fingerprint.value] else p.current)
               && q.issues == (if fingerprint.None? && p.metadataOnly
                               then p.issues + [ScanIssue(key, FileFilterFailed, false)] else p.issues)
  {
  }

  lemma InspectionEffect(s: WS.Session, hash: WS.Hash, key: Key, fingerprint: Option<Fingerprint>)
    requires s.pass.Some? && s.pass.value.awaiting == Some((key, fingerprint))
    ensures var n, p := WS.InspectFile(s, hash), s.pass.value;
            && n.pass.Some?
            && var q := n.pass.value;
               && n.h == (if hash.Hashed? then s.h else s.h.(snapshot := s.h.snapshot - {key}))
               && q.full == p.full && q.metadataOnly == p.metadataOnly && q.start == p.start
               && q.unresolved == (if hash.Hashed? then p.unresolved else p.unresolved + {key})
               && q.tooLarge == p.tooLarge + (if hash.TooLarge? then 1 else 0)
               && q.hashed == p.hashed + (if hash.Hashed? then 1 else 0)
               && q.current == (if hash.Hashed? && fingerprint.Some? then p.current[key := fingerprint.value]
                                else p.current)
               && q.issues == (if hash.NotHashed? then p.issues + [ScanIssue(key, hash.code, hash.absent)]
                               else if hash.Hashed? && fingerprint.None?
                               then p.issues + [ScanIssue(key, FileObserverFailed, false)] else p.issues)
  {
  }

  /** The local state of one `_reconcile` call and its two callbacks. The live cache of the watcher
      is the old cache of the pass: the callbacks pop from it while they fill `current`. */
  class ReconciliationPass {
    const watcher: ForegroundProtectionWatcher
    const full: bool
    const metadataOnly: bool
    const startGeneration: nat
    var current: map<Key, Fingerprint>
    var unresolved: set<Key>
    var issues: seq<ScanIssue>
    var tooLarge: nat
    var hashed: nat
    ghost var rest: WS.Pass
    ghost var evidence: set<WS.Evidence>

    /** The pass as the session model describes it. */
    ghost predicate Shows(s: WS.Session)
      reads this, watcher, watcher.sink
    {
      watcher.Valid() && s.h == watcher.State() && s.pass == Some(rest) && s.evidence == evidence && Agrees()
    }

    /** The local variables are those of the modelled pass. */
    ghost predicate Agrees()
      reads this
    {
      && rest.full == full && rest.metadataOnly == metadataOnly && rest.start.generation == startGeneration
      && rest.current == current && rest.unresolved == unresolved && rest.issues == issues
      && rest.tooLarge == tooLarge && rest.hashed == hashed
    }

    constructor (watcher: ForegroundProtectionWatcher, full: bool, metadataOnly: bool, ghost s: WS.Session)
      requires watcher.Valid() && s.h == watcher.State()
      ensures this.watcher == watcher && Shows(WS.Begin(s, full, metadataOnly))
    {
      this.watcher, this.full, this.metadataOnly := watcher, full, metadataOnly;
      startGeneration := watcher.generation;
      current, unresolved, issues, tooLarge, hashed := map[], {}, [], 0, 0;
      rest := WS.Begin(s, full, metadataOnly).pass.value;
      evidence := s.evidence;
    }

    /** `changed_since_last_reconciliation`: whether the scanner is to read the file. */
    method Changed(key: Key, fingerprint: Option<Fingerprint>, ghost s: WS.Session) returns (scan: bool)
      requires Shows(s)
      modifies this, watcher`snapshot
      ensures Shows(WS.VisitFile(s, key, fingerprint))
      ensures scan <==> !metadataOnly && (fingerprint.None? || full
                        || key !in s.h.snapshot || s.h.snapshot[key] != fingerprint.value)
    {
      if fingerprint.None? {
        NoteUnrepresentable(key, s);
        return !metadataOnly;
      }
      scan := Compare(key, fingerprint.value, s);
    }

    /** A file whose metadata has no fingerprint: an issue of an inventory, a file to read otherwise. */
    method NoteUnrepresentable(key: Key, ghost s: WS.Session)
      requires Shows(s)
      modifies this
      ensures Shows(WS.VisitFile(s, key, None))
    {
      hide SinkState;
      ghost var next := WS.VisitFile(s, key, None);
      VisitEffect(s, key, None);
      hide WS.VisitFile;
      rest, evidence := next.pass.value, next.evidence;
      if metadataOnly {
        issues := issues + [ScanIssue(key, FileFilterFailed, false)];
      }
    }

    /** The comparison with the old cache, whose entry it takes. */
    method Compare(key: Key, f: Fingerprint, ghost s: WS.Session) returns (scan: bool)
      requires Shows(s)
      modifies this, watcher`snapshot
      ensures Shows(WS.VisitFile(s, key, Some(f)))
      ensures scan <==> !metadataOnly && (full || key !in s.h.snapshot || s.h.snapshot[key] != f)
    {
      hide *;
      ShowsPass(s);
      ghost var next := WS.VisitFile(s, key, Some(f));
      VisitEffect(s, key, Some(f));
      rest, evidence := next.pass.value, next.evidence;
      watcher.CacheIsShown();
      var previous := if key in watcher.snapshot then Some(watcher.snapshot[key]) else None;
      watcher.Forget(key);
      scan := !metadataOnly && (full || previous != Some(f));
      if !scan {
        current := current[key := f];
      }
      ShowsAgain(next);
    }

    lemma ShowsAgain(n: WS.Session)
      requires watcher.Valid() && n.h == watcher.State() && n.pass == Some(rest) && n.evidence == evidence
      requires && rest.full == full && rest.metadataOnly == metadataOnly && rest.start.generation == startGeneration
               && rest.current == current && rest.unresolved == unresolved && rest.issues == issues
               && rest.tooLarge == tooLarge && rest.hashed == hashed
      ensures Shows(n)
    {
    }

    /** The outcome of reading the awaited file, and `record_successful_hash`. */
    method RecordInspection(hash: WS.Hash, ghost s: WS.Session, key: Key, fingerprint: Option<Fingerprint>)
      requires Shows(s) && s.pass.value.awaiting == Some((key, fingerprint))
      modifies this, watcher`snapshot
      ensures Shows(WS.InspectFile(s, hash))
    {
      if hash.Hashed? {
        RecordHashed(hash, s, key, fingerprint);
      } else {
        RecordUnresolved(hash, s, key, fingerprint);
      }
    }

    method RecordHashed(hash: WS.Hash, ghost s: WS.Session, key: Key, fingerprint: Option<Fingerprint>)
      requires Shows(s) && s.pass.value.awaiting == Some((key, fingerprint)) && hash.Hashed?
      modifies this
      ensures Shows(WS.InspectFile(s, hash))
    {
      hide SinkState;
      ghost var next := WS.InspectFile(s, hash);
      InspectionEffect(s, hash, key, fingerprint);
      hide WS.InspectFile;
      rest, evidence := next.pass.value, next.evidence;
      hashed := hashed + 1;
      if fingerprint.Some? {
        current := current[key := fingerprint.value];
      } else {
        issues := issues + [ScanIssue(key, FileObserverFailed, false)];
      }
    }

    method RecordUnresolved(hash: WS.Hash, ghost s: WS.Session, key: Key, fingerprint: Option<Fingerprint>)
      requires Shows(s) && s.pass.value.awaiting == Some((key, fingerprint)) && !hash.Hashed?
      modifies this, watcher`snapshot
      ensures Shows(WS.InspectFile(s, hash))
    {
      hide SinkState;
      ghost var next := WS.InspectFile(s, hash);
      InspectionEffect(s, hash, key, fingerprint);
      hide WS.InspectFile;
      rest, evidence := next.pass.value, next.evidence;
      watcher.Forget(key);
      unresolved := unresolved + {key};
      if hash.TooLarge? {
        tooLarge := tooLarge + 1;
      } else {
        issues := issues + [ScanIssue(key, hash.code, hash.absent)];
      }
    }

    /** The end of `_reconcile`: report, install the new cache, and recover if nothing is missing. */
    method Complete(walk: seq<ScanIssue>, special: nat, findings: nat, observations: nat,
                    quarantine: seq<QuarantineResult>, overflowed: bool, ingestFailed: bool, ghost s: WS.Session)
      requires Shows(s) && s.m.q.overflowed == overflowed && s.ingestFailed == ingestFailed
      modifies watcher, watcher.sink
      ensures watcher.Valid()
      ensures watcher.State() ==
              WS.EndPass(s, WS.PassReport(s.pass.value, walk, special, findings, observations, quarantine)).h
      ensures HealthInv(s.h) ==> (watcher.operationalIncomplete <==> WS.StaysIncomplete(s, walk, special, quarantine))
    {
      hide *;
      ShowsPass(s);
      var kind := if metadataOnly then MetadataInventory else if full then FullRescan else Reconciliation;
      var report := Report(walk + issues, special, tooLarge, if metadataOnly then 0 else hashed,
                           findings, observations, quarantine);
      EndsAs(s, report, kind, walk, special, findings, observations, quarantine);
      if HealthInv(s.h) { WS.EndPassFlag(s, walk, special, findings, observations, quarantine); }
      watcher.FinishScanning(report, kind);
      var clean := !metadataOnly && Kept(report.issues, false) == [] && special == 0 && tooLarge == 0
                   && unresolved == {} && !overflowed && !ingestFailed;
      Settle(clean);
      watcher.FlagIsShown();
    }

    /** Installs the new cache and, if the pass is evidence enough, restores health. */
    method Settle(clean: bool)
      requires watcher.Valid()
      modifies watcher, watcher.sink
      ensures watcher.Valid()
      ensures watcher.State() == Settled(old(watcher.State()), current, clean, startGeneration)
    {
      hide SinkState;
      watcher.snapshot := current;
      if clean && !watcher.persistentIncomplete && watcher.generation == startGeneration
         && watcher.operationalIncomplete
      {
        watcher.operationalIncomplete := false;
        watcher.sink.Record(Heartbeat(false, true));
      }
    }

    lemma ShowsPass(s: WS.Session)
      requires Shows(s)
      ensures watcher.Valid() && s.h == watcher.State() && s.pass.Some?
      ensures var p := s.pass.value;
              && p.full == full && p.metadataOnly == metadataOnly && p.start.generation == startGeneration
              && p.current == current && p.unresolved == unresolved && p.issues == issues
              && p.tooLarge == tooLarge && p.hashed == hashed
    {
    }
  }

  /** The new cache, and health restored if the pass was clean and nothing has happened since it began. */
  function Settled(h: Health, current: map<Key, Fingerprint>, clean: bool, startGeneration: nat): Health {
    var h := h.(snapshot := current);
    if clean && !h.persistent && h.generation == startGeneration && h.incomplete
    then Emit(h.(incomplete := false), Heartbeat(false, true)) else h
  }

  /** The end of a pass as its report and its settlement. */
  lemma EndsAs(s: WS.Session, report: Report, kind: ScanKind, walk: seq<ScanIssue>, special: nat, findings: nat,
               observations: nat, quarantine: seq<QuarantineResult>)
    requires s.pass.Some?
    requires var p := s.pass.value;
             && kind == (if p.metadataOnly then MetadataInventory else if p.full then FullRescan else Reconciliation)
             && report == Report(walk + p.issues, special, p.tooLarge, if p.metadataOnly then 0 else p.hashed,
                                 findings, observations, quarantine)
    ensures var p := s.pass.value;
            var clean := !p.metadataOnly && Kept(report.issues, false) == [] && special == 0 && p.tooLarge == 0
                         && p.unresolved == {} && !s.m.q.overflowed && !s.ingestFailed;
            WS.EndPass(s, WS.PassReport(p, walk, special, findings, observations, quarantine)).h
            == Settled(FinishScan(s.h, report, kind), p.current, clean, p.start.generation)
  {
    hide FinishScan;
    hide Kept;
  }
}
