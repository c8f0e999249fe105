/**
 Health evidence of a watch session: the recoverable, historical and persistent flags, the
 generation counter, the metadata cache entries that a gap evicts, and the records emitted to
 the evidence sink. `Health.gaps` is history only: it counts every recorded coverage gap.
 */
module WatchHealth {
  import opened Paths

  /** Packed identity, size and timestamps of one file. */
  type Fingerprint = seq<int>

  datatype Code =
    | WatchPathUnreadable | ScanScopeIncomplete | WatchCrossFilesystemSkipped
    | WatchEventIngestStopped | WatchEventQueueOverflow | WatchEventBacklogUnprocessed
    | WatchBackendStopped | WatchRootUnavailable | WatchRootIdentityChanged | WatchTrustStateChanged

  /** Gaps that a later whole-root pass can repair; every other code is persistent. */
  predicate Recoverable(code: Code) {
    code.WatchPathUnreadable? || code.ScanScopeIncomplete?
  }

  /** The text of an issue: free text, or a fixed text with counts in it. */
  datatype Message = Text(text: string) | Counted(first: nat, second: nat)

  function Sanitize(m: Message): Message {
    match m
    case Text(t) =>
      var flat := seq(|t|, i requires 0 <= i < |t| => if t[i] == '\r' || t[i] == '\n' then ' ' else t[i]);
      Text(if |flat| <= 500 then flat else flat[..500])
    case Counted(_, _) => m
  }

  datatype Outcome =
    | Incomplete | RuleMatches | ReviewObservations | NoRuleMatches
    | MetadataInventoryComplete | NoMetadataChanges

  datatype Record =
    | SessionStarted
    | HealthIssue(code: Code, message: Message)
    | Superseded
    | ScanCompleted(outcome: Outcome)
    | ReconciliationCompleted(outcome: Outcome)
    | MetadataInventoryCompleted(outcome: Outcome)
    | Heartbeat(operationalIncomplete: bool, inventoryComplete: bool)
    | SessionCompleted

  datatype Health = Health(
    incomplete: bool, historical: bool, persistent: bool, generation: nat,
    issueKeys: set<(Code, Message)>, records: seq<Record>,
    snapshot: map<Key, Fingerprint>, gaps: nat)

  const FRESH := Health(false, false, false, 0, {}, [SessionStarted], map[], 0)

  function Emit(h: Health, r: Record): Health {
    h.(records := h.records + [r])
  }

  function RaiseIssue(h: Health, code: Code, message: Message): Health {
    var key := (code, Sanitize(message));
    var h := h.(incomplete := true, historical := true, generation := h.generation + 1, gaps := h.gaps + 1,
                persistent := h.persistent || !Recoverable(code));
    if key in h.issueKeys then h
    else Emit(h.(issueKeys := h.issueKeys + {key}), HealthIssue(code, key.1))
  }

  // ---------- one completed scan ----------

  datatype IssueCode =
    | RootUnreadable | DirectoryUnreadable | EntryUnreadable | FileOpenFailed | FileReadFailed
    | FileChanged | ContentWorkerFailed | FileFilterFailed | FileObserverFailed

  /** `absent`: the message names a missing path and a fresh probe confirms that it is gone. */
  datatype ScanIssue = ScanIssue(key: Key, code: IssueCode, absent: bool)

  predicate Vanished(i: ScanIssue, allowVanishedRoot: bool) {
    && i.absent
    && match i.code
       case DirectoryUnreadable => true
       case EntryUnreadable => true
       case FileOpenFailed => true
       case FileReadFailed => true
       case RootUnreadable => allowVanishedRoot
       case _ => false
  }

  datatype QuarantineResult = Stored | Partial | Failed

  datatype Report = Report(
    issues: seq<ScanIssue>, special: nat, tooLarge: nat, hashed: nat,
    findings: nat, observations: nat, quarantine: seq<QuarantineResult>)

  datatype ScanKind = EventScan | MetadataInventory | Reconciliation | FullRescan

  function Kept(issues: seq<ScanIssue>, allowVanishedRoot: bool): seq<ScanIssue> {
    if issues == [] then []
    else
      var rest := Kept(issues[..|issues| - 1], allowVanishedRoot);
      var last := issues[|issues| - 1];
      if Vanished(last, allowVanishedRoot) then rest else rest + [last]
  }

  function Gone(issues: seq<ScanIssue>, allowVanishedRoot: bool): seq<ScanIssue> {
    if issues == [] then []
    else
      var rest := Gone(issues[..|issues| - 1], allowVanishedRoot);
      var last := issues[|issues| - 1];
      if Vanished(last, allowVanishedRoot) then rest + [last] else rest
  }

  function Evict(h: Health, issues: seq<ScanIssue>): Health {
    if issues == [] then h
    else
      var h := Evict(h, issues[..|issues| - 1]);
      h.(snapshot := h.snapshot - {issues[|issues| - 1].key})
  }

  function OutcomeOf(report: Report, kept: seq<ScanIssue>, kind: ScanKind): Outcome {
    if report.special > 0 || report.tooLarge > 0 || kept != [] then Incomplete
    else if kind.MetadataInventory? && report.hashed == 0 then MetadataInventoryComplete
    else if kind.Reconciliation? && report.hashed == 0 then NoMetadataChanges
    else if report.findings > 0 then RuleMatches
    else if report.observations > 0 then ReviewObservations
    else NoRuleMatches
  }

  /** What an issue means for coverage, said without the code's own test: only something that is
      confirmed to be gone, and was met in one of the ways in which things go, is no gap. A root may
      go only if it is the path of an event. Contracts speak of this predicate, the steps do not. */
  predicate IsGap(i: ScanIssue, eventScan: bool) {
    || !i.absent
    || i.code in {FileChanged, ContentWorkerFailed, FileFilterFailed, FileObserverFailed}
    || (i.code == RootUnreadable && !eventScan)
  }

  predicate HasGap(issues: seq<ScanIssue>, eventScan: bool) {
    exists i :: i in issues && IsGap(i, eventScan)
  }

  /** The scan left something uninspected. */
  predicate Uninspected(report: Report, kind: ScanKind) {
    HasGap(report.issues, kind.EventScan?) || report.special > 0 || report.tooLarge > 0
  }

  predicate Unfinished(report: Report) {
    exists r :: r in report.quarantine && !r.Stored?
  }

  function Completed(kind: ScanKind, outcome: Outcome): Record {
    match kind
    case MetadataInventory => MetadataInventoryCompleted(outcome)
    case Reconciliation => ReconciliationCompleted(outcome)
    case _ => ScanCompleted(outcome)
  }

  function NoteGone(h: Health, gone: seq<ScanIssue>): Health {
    var h := Evict(h, gone);
    if gone == [] then h else Emit(h, Superseded)
  }

  function NoteKept(h: Health, kept: seq<ScanIssue>): Health {
    if kept == [] then h
    else
      Evict(h.(incomplete := true, historical := true, generation := h.generation + 1, gaps := h.gaps + 1), kept)
  }

  function NoteScope(h: Health, special: nat, tooLarge: nat): Health {
    if special == 0 && tooLarge == 0 then h
    else RaiseIssue(h, ScanScopeIncomplete, Counted(special, tooLarge))
  }

  /** A quarantine that did not finish is a persistent gap that leaves the generation alone. */
  function NoteQuarantine(h: Health, results: seq<QuarantineResult>): Health {
    if results == [] then h
    else
      var h := NoteQuarantine(h, results[..|results| - 1]);
      if results[|results| - 1].Stored? then h
      else h.(incomplete := true, historical := true, persistent := true, gaps := h.gaps + 1)
  }

  /** Everything the watcher does with a scan result. */
  function FinishScan(h: Health, report: Report, kind: ScanKind): Health {
    var kept := Kept(report.issues, kind.EventScan?);
    var h := NoteKept(NoteGone(h, Gone(report.issues, kind.EventScan?)), kept);
    var h := NoteQuarantine(NoteScope(h, report.special, report.tooLarge), report.quarantine);
    Emit(h, Completed(kind, OutcomeOf(report, kept, kind)))
  }

  // ---------- one delivered event path ----------

  datatype PathAnswer =
    | OutOfScope
    | PathGone
    | PathUnreadable(message: string)
    | OtherFilesystem(message: string)
    | PathScanned(uninspected: seq<Key>, report: Report)

  function ScanPending(h: Health, key: Key, answer: PathAnswer): Health {
    match answer
    case OutOfScope => h
    case PathGone => Emit(h.(snapshot := h.snapshot - {key}), Superseded)
    case PathUnreadable(m) => RaiseIssue(h.(snapshot := h.snapshot - {key}), WatchPathUnreadable, Text(m))
    case OtherFilesystem(m) => RaiseIssue(h, WatchCrossFilesystemSkipped, Text(m))
    case PathScanned(uninspected, report) =>
      FinishScan(h.(snapshot := h.snapshot - (set k | k in uninspected)), report, EventScan)
  }

  /** Handling the path is a coverage gap. */
  predicate GapAnswer(answer: PathAnswer) {
    match answer
    case OutOfScope => false
    case PathGone => false
    case PathUnreadable(_) => true
    case OtherFilesystem(_) => true
    case PathScanned(_, report) => Uninspected(report, EventScan) || Unfinished(report)
  }

  predicate Unreported(h: Health, code: Code, message: Message) {
    (code, Sanitize(message)) !in h.issueKeys
  }

  /** Handling the path emits a record that degrades the sink. */
  predicate TellsAnswer(h: Health, answer: PathAnswer) {
    match answer
    case OutOfScope => false
    case PathGone => false
    case PathUnreadable(m) => Unreported(h, WatchPathUnreadable, Text(m))
    case OtherFilesystem(m) => Unreported(h, WatchCrossFilesystemSkipped, Text(m))
    case PathScanned(_, report) => Uninspected(report, EventScan)
  }

  // ---------- the sink ----------

  datatype OperationalState = Starting | InventoryingMetadata | Degraded | Healthy | Stopped

  /** How the evidence sink folds one record into its operational state. */
  function Fold(s: OperationalState, r: Record): OperationalState {
    match r
    case SessionStarted => InventoryingMetadata
    case HealthIssue(_, _) => Degraded
    case Superseded => s
    case ScanCompleted(o) => if o == Incomplete then Degraded else s
    case ReconciliationCompleted(o) => if o == Incomplete then Degraded else s
    case MetadataInventoryCompleted(o) =>
      if o != MetadataInventoryComplete then Degraded else if s == Degraded then s else Healthy
    case Heartbeat(incomplete, inventoryComplete) =>
      if incomplete then Degraded else if inventoryComplete then Healthy else s
    case SessionCompleted => Stopped
  }

  function SinkState(records: seq<Record>): OperationalState {
    if records == [] then Starting
    else Fold(SinkState(records[..|records| - 1]), records[|records| - 1])
  }

  lemma SinkAfter(records: seq<Record>, r: Record)
    ensures SinkState(records + [r]) == Fold(SinkState(records), r)
  {
  }

  // ---------- what recording a gap guarantees ----------

  ghost predicate HealthInv(h: Health) {
    && (h.incomplete ==> h.historical)
    && (h.persistent ==> h.incomplete)
    && (h.historical <==> h.gaps > 0)
    && h.generation <= h.gaps
  }

  /** `b` follows `a` without a recovery: flags only rise, every new gap moves the generation or
      is persistent, and the cache only loses entries. */
  ghost predicate Worsens(a: Health, b: Health) {
    && (a.incomplete ==> b.incomplete) && (a.historical ==> b.historical) && (a.persistent ==> b.persistent)
    && a.generation <= b.generation && a.gaps <= b.gaps
    && (b.gaps > a.gaps ==> b.incomplete && (b.generation > a.generation || b.persistent))
    && (b.gaps == a.gaps ==> b.incomplete == a.incomplete && b.persistent == a.persistent
                             && b.generation == a.generation)
    && b.snapshot.Items <= a.snapshot.Items
  }

  /** The sink turns degraded only on evidence of a gap, and never turns healthy from degraded. */
  ghost predicate SinkFollows(a: Health, b: Health) {
    var s, t := SinkState(a.records), SinkState(b.records);
    && (t == Degraded ==> s == Degraded || b.gaps > a.gaps)
    && (s == Degraded ==> t == Degraded)
  }

  lemma WorsensTrans(a: Health, b: Health, c: Health)
    requires Worsens(a, b) && Worsens(b, c)
    ensures Worsens(a, c)
  {
  }

  /** An issue degrades the sink unless the same issue was reported before: then the sink stays as
      it is, because the repetition is not emitted. Two codes alone are recoverable. */
  lemma RaiseIssueEffect(h: Health, code: Code, message: Message)
    requires HealthInv(h)
    ensures var n := RaiseIssue(h, code, message);
            && HealthInv(n) && Worsens(h, n) && n.gaps == h.gaps + 1 && n.incomplete
            && n.snapshot == h.snapshot && n.generation == h.generation + 1
            && (n.persistent <==> h.persistent || (code != WatchPathUnreadable && code != ScanScopeIncomplete))
            && SinkFollows(h, n)
            && SinkState(n.records) ==
               if Unreported(h, code, message) then Degraded else SinkState(h.records)
  {
  }

  /** A reported text has its line breaks blanked and is cut at 500 characters, and an issue is silent
      exactly when the same code was reported with the same such text. */
  lemma RepetitionIsSilent(h: Health, code: Code, t: string, u: string)
    requires h.issueKeys == {}
    ensures var a := RaiseIssue(h, code, Text(t));
            var b := RaiseIssue(a, code, Text(u));
            && (exists shown :: a.records == h.records + [HealthIssue(code, Text(shown))] && ShownAs(shown, t))
            && (b.records == a.records <==> exists shown :: ShownAs(shown, t) && ShownAs(shown, u))
  {
    var a := RaiseIssue(h, code, Text(t));
    SanitizedShows(t);
    SanitizedShows(u);
    assert a.records == h.records + [HealthIssue(code, Text(Sanitize(Text(t)).text))];
    if exists shown :: ShownAs(shown, t) && ShownAs(shown, u) {
      var shown :| ShownAs(shown, t) && ShownAs(shown, u);
      ShownOnce(shown, Sanitize(Text(t)).text, t);
      ShownOnce(shown, Sanitize(Text(u)).text, u);
    }
  }

  ghost predicate ShownAs(shown: string, t: string) {
    && |shown| == (if |t| <= 500 then |t| else 500)
    && forall k :: 0 <= k < |shown| ==> shown[k] == if t[k] == '\r' || t[k] == '\n' then ' ' else t[k]
  }

  lemma SanitizedShows(t: string)
    ensures Sanitize(Text(t)).Text? && ShownAs(Sanitize(Text(t)).text, t)
  {
  }

  lemma ShownOnce(a: string, b: string, t: string)
    requires ShownAs(a, t) && ShownAs(b, t)
    ensures a == b
  {
  }

  lemma {:induction false} EvictEffect(h: Health, issues: seq<ScanIssue>)
    ensures Evict(h, issues) == h.(snapshot := Evict(h, issues).snapshot)
    ensures Evict(h, issues).snapshot == h.snapshot - (set i | i in issues :: i.key)
  {
    if issues == [] {
      assert h.snapshot - {} == h.snapshot;
    } else {
      var front := issues[..|issues| - 1];
      EvictEffect(h, front);
      assert issues == front + [issues[|issues| - 1]];
      assert (set i | i in issues :: i.key) == (set i | i in front :: i.key) + {issues[|issues| - 1].key};
      MinusTwice(h.snapshot, set i | i in front :: i.key, {issues[|issues| - 1].key});
    }
  }

  lemma MinusTwice(m: map<Key, Fingerprint>, a: set<Key>, b: set<Key>)
    ensures (m - a) - b == m - (a + b)
  {
  }

  lemma MinusShrinks(m: map<Key, Fingerprint>, a: set<Key>)
    ensures (m - a).Items <= m.Items
  {
  }

  /** The issues kept are the gaps, those let go the disappearances. */
  lemma {:induction false} SortedIssues(issues: seq<ScanIssue>, eventScan: bool)
    ensures forall i :: i in Kept(issues, eventScan) <==> i in issues && IsGap(i, eventScan)
    ensures forall i :: i in Gone(issues, eventScan) <==> i in issues && !IsGap(i, eventScan)
    ensures Kept(issues, eventScan) != [] <==> HasGap(issues, eventScan)
    ensures Gone(issues, eventScan) == [] ==> forall i :: i in issues ==> IsGap(i, eventScan)
  {
    if issues != [] {
      var front, last := issues[..|issues| - 1], issues[|issues| - 1];
      assert issues == front + [last];
      SortedIssues(front, eventScan);
      assert Vanished(last, eventScan) <==> !IsGap(last, eventScan);
    }
    hide Vanished;
    hide IsGap;
    if Kept(issues, eventScan) != [] {
      assert Kept(issues, eventScan)[0] in Kept(issues, eventScan);
    }
  }

  lemma GapMeans(issues: seq<ScanIssue>, eventScan: bool)
    ensures HasGap(issues, eventScan) <==> exists i :: i in issues && IsGap(i, eventScan)
  {
  }

  lemma NoteGoneEffect(h: Health, gone: seq<ScanIssue>)
    requires HealthInv(h)
    ensures HealthInv(NoteGone(h, gone)) && Worsens(h, NoteGone(h, gone)) && SinkFollows(h, NoteGone(h, gone))
    ensures NoteGone(h, gone).gaps == h.gaps && SinkState(NoteGone(h, gone).records) == SinkState(h.records)
  {
    EvictEffect(h, gone);
    MinusShrinks(h.snapshot, set i | i in gone :: i.key);
    SinkAfter(h.records, Superseded);
  }

  lemma NoteKeptEffect(h: Health, kept: seq<ScanIssue>)
    requires HealthInv(h)
    ensures HealthInv(NoteKept(h, kept)) && Worsens(h, NoteKept(h, kept)) && SinkFollows(h, NoteKept(h, kept))
    ensures NoteKept(h, kept).gaps == if kept == [] then h.gaps else h.gaps + 1
    ensures NoteKept(h, kept).records == h.records
  {
    if kept != [] {
      var g := h.(incomplete := true, historical := true, generation := h.generation + 1, gaps := h.gaps + 1);
      EvictEffect(g, kept);
      MinusShrinks(g.snapshot, set i | i in kept :: i.key);
    }
  }

  lemma {:induction false} NoteQuarantineEffect(h: Health, results: seq<QuarantineResult>)
    requires HealthInv(h)
    ensures HealthInv(NoteQuarantine(h, results)) && Worsens(h, NoteQuarantine(h, results))
    ensures NoteQuarantine(h, results).records == h.records
    ensures NoteQuarantine(h, results).gaps > h.gaps <==> exists r :: r in results && !r.Stored?
    ensures NoteQuarantine(h, results).gaps > h.gaps ==> NoteQuarantine(h, results).persistent
    ensures NoteQuarantine(h, results).generation == h.generation && NoteQuarantine(h, results).snapshot == h.snapshot
    ensures NoteQuarantine(h, results).issueKeys == h.issueKeys
  {
    if results != [] {
      var front := results[..|results| - 1];
      NoteQuarantineEffect(h, front);
      assert results == front + [results[|results| - 1]];
    }
  }

  /** A scan result raises the flags exactly when something was not inspected or a quarantine did
      not finish, but only the former degrades the sink. Beyond that the sink changes only when a
      complete inventory ends while it is not degraded. */
  lemma FinishScanEffect(h: Health, report: Report, kind: ScanKind)
    requires HealthInv(h) && (kind.MetadataInventory? ==> report.hashed == 0)
    ensures var n := FinishScan(h, report, kind);
            && HealthInv(n) && Worsens(h, n) && SinkFollows(h, n)
            && (n.gaps > h.gaps <==> Uninspected(report, kind) || Unfinished(report))
            && SinkState(n.records) ==
               if Uninspected(report, kind) then Degraded
               else if kind.MetadataInventory? && SinkState(h.records) != Degraded then Healthy
               else SinkState(h.records)
  {
    hide Kept;
    hide Gone;
    hide NoteGone;
    hide NoteKept;
    hide NoteScope;
    hide NoteQuarantine;
    hide OutcomeOf;
    hide SinkState;
    hide HealthInv;
    hide Worsens;
    hide SinkFollows;
    var kept := Kept(report.issues, kind.EventScan?);
    var a := NoteGone(h, Gone(report.issues, kind.EventScan?));
    var b := NoteKept(a, kept);
    var c := NoteScope(b, report.special, report.tooLarge);
    var d := NoteQuarantine(c, report.quarantine);
    SortedIssues(report.issues, kind.EventScan?);
    hide HasGap;
    hide IsGap;
    NoteGoneEffect(h, Gone(report.issues, kind.EventScan?));
    NoteKeptEffect(a, kept);
    NoteScopeEffect(b, report.special, report.tooLarge);
    NoteQuarantineEffect(c, report.quarantine);
    ChainEffect(h, a, b, c, d);
    assert !Uninspected(report, kind) ==> c == b && SinkState(d.records) == SinkState(h.records);
    FinishScanLast(h, report, kind, d);
  }

  lemma NoteScopeEffect(h: Health, special: nat, tooLarge: nat)
    requires HealthInv(h)
    ensures var n := NoteScope(h, special, tooLarge);
            HealthInv(n) && Worsens(h, n) && SinkFollows(h, n)
            && n.gaps == (if special == 0 && tooLarge == 0 then h.gaps else h.gaps + 1)
            && (special == 0 && tooLarge == 0 ==> n == h)
  {
  }

  lemma ChainEffect(h: Health, a: Health, b: Health, c: Health, d: Health)
    requires Worsens(h, a) && Worsens(a, b) && Worsens(b, c) && Worsens(c, d)
    requires SinkFollows(h, a) && SinkFollows(a, b) && SinkFollows(b, c) && c.records == d.records
    ensures Worsens(h, d) && SinkFollows(h, d) && h.gaps <= a.gaps <= b.gaps <= c.gaps <= d.gaps
  {
  }

  lemma FinishScanLast(h: Health, report: Report, kind: ScanKind, d: Health)
    requires HealthInv(d) && Worsens(h, d) && SinkFollows(h, d)
    requires kind.MetadataInventory? ==> report.hashed == 0
    requires FinishScan(h, report, kind) ==
             Emit(d, Completed(kind, OutcomeOf(report, Kept(report.issues, kind.EventScan?), kind)))
    requires Uninspected(report, kind) ==> d.gaps > h.gaps
    requires !Uninspected(report, kind) ==> SinkState(d.records) == SinkState(h.records)
    ensures var n := FinishScan(h, report, kind);
            && HealthInv(n) && Worsens(h, n) && SinkFollows(h, n) && n.gaps == d.gaps
            && SinkState(n.records) ==
               if Uninspected(report, kind) then Degraded
               else if kind.MetadataInventory? && SinkState(h.records) != Degraded then Healthy
               else SinkState(h.records)
  {
    hide FinishScan;
    hide SinkState;
    var r := Completed(kind, OutcomeOf(report, Kept(report.issues, kind.EventScan?), kind));
    SinkAfter(d.records, r);
    SortedIssues(report.issues, kind.EventScan?);
    hide HasGap;
    hide Kept;
  }

  /** Every issue that is a gap counts, whatever else the scan found: it raises both flags, moves the
      generation and costs the file its cache entry. */
  lemma GapIssueCounts(h: Health, report: Report, kind: ScanKind, i: ScanIssue)
    requires HealthInv(h) && i in report.issues && IsGap(i, kind.EventScan?)
    ensures var n := FinishScan(h, report, kind);
            && n.incomplete && n.historical && n.gaps > h.gaps && n.generation > h.generation
            && i.key !in n.snapshot
  {
    var gone, kept := Gone(report.issues, kind.EventScan?), Kept(report.issues, kind.EventScan?);
    var a := NoteGone(h, gone);
    var b := NoteKept(a, kept);
    var c := NoteScope(b, report.special, report.tooLarge);
    SortedIssues(report.issues, kind.EventScan?);
    assert i in kept;
    NoteGoneEffect(h, gone);
    KeptCounts(a, kept, i);
    NoteScopeEffect(b, report.special, report.tooLarge);
    NoteQuarantineEffect(c, report.quarantine);
    hide NoteGone;
    hide NoteKept;
    hide NoteScope;
    hide NoteQuarantine;
    hide Kept;
    hide Gone;
    hide SinkFollows;
    hide IsGap;
    hide HasGap;
    StaysEvicted(b, c, i.key);
  }

  lemma KeptCounts(h: Health, kept: seq<ScanIssue>, i: ScanIssue)
    requires HealthInv(h) && i in kept
    ensures var n := NoteKept(h, kept);
            && HealthInv(n) && Worsens(h, n) && n.incomplete && n.historical
            && n.gaps == h.gaps + 1 && n.generation == h.generation + 1 && i.key !in n.snapshot
  {
    NoteKeptEffect(h, kept);
    EvictEffect(h.(incomplete := true, historical := true, generation := h.generation + 1, gaps := h.gaps + 1), kept);
    hide Worsens;
    hide HealthInv;
    hide SinkFollows;
    assert i.key in (set k | k in kept :: k.key);
  }

  lemma StaysEvicted(a: Health, b: Health, key: Key)
    requires Worsens(a, b) && key !in a.snapshot
    ensures key !in b.snapshot
  {
    assert forall k :: k in b.snapshot ==> (k, b.snapshot[k]) in b.snapshot.Items;
  }

  /** A scan that met disappearances only, with its quarantine finished, changes nothing but the cache
      entries of what has gone, and the records. */
  lemma DisappearancesAreNoGap(h: Health, report: Report, kind: ScanKind)
    requires !HasGap(report.issues, kind.EventScan?) && report.special == 0 && report.tooLarge == 0
    requires forall r :: r in report.quarantine ==> r.Stored?
    ensures var n := FinishScan(h, report, kind);
            && n == h.(snapshot := h.snapshot - (set i | i in report.issues :: i.key), records := n.records)
            && n.records == h.records + (if report.issues == [] then [] else [Superseded])
                            + [n.records[|n.records| - 1]]
  {
    hide *;
    GoneAlone(h, report, kind);
    var a := NoteGone(h, report.issues);
    AllStored(a, report.quarantine);
    GoneShows(h, report.issues);
    EmitShows(a, Completed(kind, OutcomeOf(report, [], kind)));
  }

  lemma GoneAlone(h: Health, report: Report, kind: ScanKind)
    requires !HasGap(report.issues, kind.EventScan?) && report.special == 0 && report.tooLarge == 0
    ensures FinishScan(h, report, kind) ==
            Emit(NoteQuarantine(NoteGone(h, report.issues), report.quarantine), Completed(kind, OutcomeOf(report, [], kind)))
  {
    NothingKept(report.issues, kind.EventScan?);
    hide HasGap;
    hide Kept;
    hide Gone;
    hide NoteGone;
    hide NoteQuarantine;
    hide OutcomeOf;
    hide Emit;
  }

  lemma {:induction false} NothingKept(issues: seq<ScanIssue>, eventScan: bool)
    requires !HasGap(issues, eventScan)
    ensures Kept(issues, eventScan) == [] && Gone(issues, eventScan) == issues
  {
    hide Vanished;
    hide IsGap;
    if issues != [] {
      var front, last := issues[..|issues| - 1], issues[|issues| - 1];
      assert issues == front + [last];
      assert last in issues && forall i :: i in front ==> i in issues;
      assert !IsGap(last, eventScan);
      NothingKept(front, eventScan);
      hide HasGap;
      VanishedIsNoGap(last, eventScan);
    }
  }

  lemma VanishedIsNoGap(i: ScanIssue, eventScan: bool)
    ensures Vanished(i, eventScan) <==> !IsGap(i, eventScan)
  {
  }

  lemma GoneShows(h: Health, gone: seq<ScanIssue>)
    ensures NoteGone(h, gone) ==
            h.(snapshot := h.snapshot - (set i | i in gone :: i.key),
               records := h.records + (if gone == [] then [] else [Superseded]))
  {
    EvictEffect(h, gone);
    assert h.records + [] == h.records;
    hide Evict;
  }

  lemma EmitShows(h: Health, r: Record)
    ensures var n := Emit(h, r);
            n == h.(records := n.records) && n.records == h.records + [r] && n.records[|n.records| - 1] == r
  {
  }

  lemma {:induction false} AllStored(h: Health, results: seq<QuarantineResult>)
    requires forall r :: r in results ==> r.Stored?
    ensures NoteQuarantine(h, results) == h
  {
    if results != [] {
      AllStored(h, results[..|results| - 1]);
    }
  }

  /** What a scan costs the cache, and how far the generation moves: the entries of its issues and
      nothing else, one step for issues that are gaps and one for files outside its scope. Only an
      unfinished quarantine is persistent. */
  lemma ScanCosts(h: Health, report: Report, kind: ScanKind)
    requires HealthInv(h)
    ensures var n := FinishScan(h, report, kind);
            && n.snapshot == h.snapshot - (set i | i in report.issues :: i.key)
            && n.generation == h.generation + (if HasGap(report.issues, kind.EventScan?) then 1 else 0)
                               + (if report.special > 0 || report.tooLarge > 0 then 1 else 0)
            && (n.persistent <==> h.persistent || Unfinished(report))
  {
    var b := NoteKept(NoteGone(h, Gone(report.issues, kind.EventScan?)), Kept(report.issues, kind.EventScan?));
    var c := NoteScope(b, report.special, report.tooLarge);
    IssuesCost(h, report.issues, kind.EventScan?);
    NoteScopeEffect(b, report.special, report.tooLarge);
    NoteQuarantineEffect(c, report.quarantine);
    ScopeCosts(b, report.special, report.tooLarge);
    QuarantineIsPersistent(c, report.quarantine);
    hide NoteGone;
    hide NoteKept;
    hide NoteScope;
    hide NoteQuarantine;
    hide Kept;
    hide Gone;
    hide HasGap;
    hide OutcomeOf;
    hide HealthInv;
    hide Worsens;
    hide SinkFollows;
  }

  lemma IssuesCost(h: Health, issues: seq<ScanIssue>, eventScan: bool)
    requires HealthInv(h)
    ensures var n := NoteKept(NoteGone(h, Gone(issues, eventScan)), Kept(issues, eventScan));
            && HealthInv(n) && n.snapshot == h.snapshot - (set i | i in issues :: i.key)
            && n.generation == h.generation + (if HasGap(issues, eventScan) then 1 else 0)
            && n.persistent == h.persistent
  {
    var gone, kept := Gone(issues, eventScan), Kept(issues, eventScan);
    var a := NoteGone(h, gone);
    SortedIssues(issues, eventScan);
    hide IsGap;
    hide HasGap;
    hide Kept;
    hide Gone;
    NoteGoneEffect(h, gone);
    NoteKeptEffect(a, kept);
    hide HealthInv;
    hide Worsens;
    hide SinkFollows;
    EvictEffect(h, gone);
    EvictEffect(a.(incomplete := true, historical := true, generation := a.generation + 1, gaps := a.gaps + 1), kept);
    hide Evict;
    var left, lost := set i | i in gone :: i.key, set i | i in kept :: i.key;
    assert (set i | i in issues :: i.key) == left + lost;
    MinusTwice(h.snapshot, left, lost);
    assert kept == [] ==> lost == {} && left + lost == left;
  }

  lemma ScopeCosts(h: Health, special: nat, tooLarge: nat)
    ensures var n := NoteScope(h, special, tooLarge);
            n.snapshot == h.snapshot && n.persistent == h.persistent
            && n.generation == h.generation + if special > 0 || tooLarge > 0 then 1 else 0
  {
  }

  lemma {:induction false} QuarantineIsPersistent(h: Health, results: seq<QuarantineResult>)
    ensures NoteQuarantine(h, results).persistent <==> h.persistent || exists r :: r in results && !r.Stored?
  {
    if results != [] {
      QuarantineIsPersistent(h, results[..|results| - 1]);
      assert results == results[..|results| - 1] + [results[|results| - 1]];
    }
  }

  /** The name under which a scan is reported, and when its outcome is which. */
  lemma ScanIsReportedAs(h: Health, report: Report, kind: ScanKind)
    ensures var n := FinishScan(h, report, kind);
            n.records != []
            && var r := n.records[|n.records| - 1];
               && (r.MetadataInventoryCompleted? <==> kind == MetadataInventory)
               && (r.ReconciliationCompleted? <==> kind == Reconciliation)
               && (r.ScanCompleted? <==> kind == EventScan || kind == FullRescan)
               && var inventoried := kind == MetadataInventory && report.hashed == 0;
                  var idle := kind == Reconciliation && report.hashed == 0;
                  && (r.outcome == Incomplete <==> Uninspected(report, kind))
                  && (r.outcome == MetadataInventoryComplete <==> !Uninspected(report, kind) && inventoried)
                  && (r.outcome == NoMetadataChanges <==> !Uninspected(report, kind) && idle)
                  && (r.outcome == RuleMatches <==>
                        !Uninspected(report, kind) && !inventoried && !idle && report.findings > 0)
                  && (r.outcome == ReviewObservations <==>
                        !Uninspected(report, kind) && !inventoried && !idle && report.findings == 0
                        && report.observations > 0)
  {
    SortedIssues(report.issues, kind.EventScan?);
    hide Kept;
    hide Gone;
    hide HasGap;
    hide IsGap;
    hide NoteGone;
    hide NoteKept;
    hide NoteScope;
    hide NoteQuarantine;
  }

  /** Only disappearances and issues are recorded from `a` to `b`. */
  ghost predicate Mentions(a: Health, b: Health) {
    && a.records <= b.records
    && forall k :: |a.records| <= k < |b.records| ==> b.records[k] == Superseded || b.records[k].HealthIssue?
  }

  lemma NoteGoneMentions(h: Health, gone: seq<ScanIssue>)
    ensures Mentions(h, NoteGone(h, gone))
  {
    EvictEffect(h, gone);
    hide Evict;
  }

  lemma NoteKeptMentions(h: Health, kept: seq<ScanIssue>)
    ensures NoteKept(h, kept).records == h.records
  {
    EvictEffect(h.(incomplete := true, historical := true, generation := h.generation + 1, gaps := h.gaps + 1), kept);
    hide Evict;
  }

  lemma NoteScopeMentions(h: Health, special: nat, tooLarge: nat)
    ensures Mentions(h, NoteScope(h, special, tooLarge))
  {
    hide Sanitize;
  }

  /** A scan reports itself once, after what it says of disappearances and of files outside its scope. */
  lemma ScanReportsOnce(h: Health, report: Report, kind: ScanKind)
    ensures var n := FinishScan(h, report, kind);
            && |n.records| > |h.records| && h.records <= n.records
            && forall k :: |h.records| <= k < |n.records| - 1 ==> n.records[k] == Superseded || n.records[k].HealthIssue?
  {
    var gone, kept := Gone(report.issues, kind.EventScan?), Kept(report.issues, kind.EventScan?);
    var a := NoteGone(h, gone);
    var b := NoteKept(a, kept);
    var c := NoteScope(b, report.special, report.tooLarge);
    NoteGoneMentions(h, gone);
    NoteKeptMentions(a, kept);
    NoteScopeMentions(b, report.special, report.tooLarge);
    QuarantineIsQuiet(c, report.quarantine);
    hide NoteGone;
    hide NoteKept;
    hide NoteScope;
    hide NoteQuarantine;
    hide Kept;
    hide Gone;
    hide OutcomeOf;
  }

  lemma {:induction false} QuarantineIsQuiet(h: Health, results: seq<QuarantineResult>)
    ensures NoteQuarantine(h, results).records == h.records
  {
    if results != [] {
      QuarantineIsQuiet(h, results[..|results| - 1]);
    }
  }

  lemma ScanPendingEffect(h: Health, key: Key, answer: PathAnswer)
    requires HealthInv(h)
    ensures var n := ScanPending(h, key, answer);
            && HealthInv(n) && Worsens(h, n) && SinkFollows(h, n)
            && (n.gaps > h.gaps <==> GapAnswer(answer))
            && SinkState(n.records) == if TellsAnswer(h, answer) then Degraded else SinkState(h.records)
  {
    hide FinishScan;
    hide SinkState;
    match answer
    case OutOfScope =>
    case PathGone =>
      MinusShrinks(h.snapshot, {key});
      SinkAfter(h.records, Superseded);
    case PathUnreadable(m) =>
      var g := h.(snapshot := h.snapshot - {key});
      MinusShrinks(h.snapshot, {key});
      RaiseIssueEffect(g, WatchPathUnreadable, Text(m));
    case OtherFilesystem(m) => RaiseIssueEffect(h, WatchCrossFilesystemSkipped, Text(m));
    case PathScanned(uninspected, report) =>
      var g := h.(snapshot := h.snapshot - (set k | k in uninspected));
      MinusShrinks(h.snapshot, set k | k in uninspected);
      FinishScanEffect(g, report, EventScan);
  }

  /** What one delivered path costs the cache, and when it is a persistent gap: a path that is gone or
      unreadable loses its entry, a scan those of its files that were not inspected and of its issues. */
  lemma DeliveryCosts(h: Health, key: Key, answer: PathAnswer)
    requires HealthInv(h)
    ensures var n := ScanPending(h, key, answer);
            && n.snapshot == h.snapshot -
                 (match answer
                  case OutOfScope => {}
                  case PathGone => {key}
                  case PathUnreadable(_) => {key}
                  case OtherFilesystem(_) => {}
                  case PathScanned(uninspected, report) =>
                    (set k | k in uninspected) + (set i | i in report.issues :: i.key))
            && (n.persistent <==>
                  h.persistent || answer.OtherFilesystem? || (answer.PathScanned? && Unfinished(answer.report)))
            && (answer.OutOfScope? ==> n == h)
            && (answer.PathGone? ==> n.records == h.records + [Superseded])
  {
    hide FinishScan;
    match answer
    case PathScanned(uninspected, report) =>
      var g := h.(snapshot := h.snapshot - (set k | k in uninspected));
      ScanCosts(g, report, EventScan);
      MinusTwice(h.snapshot, set k | k in uninspected, set i | i in report.issues :: i.key);
    case _ => assert h.snapshot - {} == h.snapshot;
  }

  /** The sink can lag behind the watcher between heartbeats: an issue that recurs after a recovery
      raises the flag again without a record. */
  lemma RepeatedIssueLags(h: Health, code: Code, message: Message)
    requires HealthInv(h) && Recoverable(code) && !h.persistent
    ensures var raised := RaiseIssue(h, code, message);
            var recovered := Emit(raised.(incomplete := false), Heartbeat(false, true));
            var again := RaiseIssue(recovered, code, message);
            again.incomplete && SinkState(again.records) == Healthy
  {
  }

  /** So does a scan whose only gap is an unfinished quarantine: the flag rises for good while the
      reported outcome, and with it the sink, stays as it is. */
  lemma UnfinishedQuarantineIsSilent(h: Health, report: Report, kind: ScanKind)
    requires HealthInv(h) && SinkState(h.records) == Healthy && (kind.MetadataInventory? ==> report.hashed == 0)
    requires !Uninspected(report, kind)
    ensures var n := FinishScan(h, report, kind);
            SinkState(n.records) == Healthy && (Unfinished(report) ==> n.incomplete && n.persistent)
    ensures var failed := Report([], 0, 0, 1, 1, 0, [Failed]);
            var n := FinishScan(h, failed, EventScan);
            n.incomplete && n.persistent && SinkState(n.records) == Healthy && n.issueKeys == h.issueKeys
  {
    FinishScanEffect(h, report, kind);
    NoScopeGapKeepsTheRest(h, report, kind);
    var failed := Report([], 0, 0, 1, 1, 0, [Failed]);
    assert failed.quarantine[0] in failed.quarantine;
    assert !Uninspected(failed, EventScan) && Unfinished(failed);
    FinishScanEffect(h, failed, EventScan);
    NoScopeGapKeepsTheRest(h, failed, EventScan);
    hide *;
  }

  /** Without an uninspected file, a raised flag is persistent and no issue is added. */
  lemma NoScopeGapKeepsTheRest(h: Health, report: Report, kind: ScanKind)
    requires HealthInv(h) && !Uninspected(report, kind)
    ensures var n := FinishScan(h, report, kind);
            n.issueKeys == h.issueKeys && (Unfinished(report) ==> n.incomplete && n.persistent)
  {
    var gone := Gone(report.issues, kind.EventScan?);
    var a := NoteGone(h, gone);
    SortedIssues(report.issues, kind.EventScan?);
    hide HasGap;
    EvictEffect(h, gone);
    NoteGoneEffect(h, gone);
    QuarantineRaises(a, report.quarantine);
    hide NoteGone;
    hide NoteQuarantine;
    hide Kept;
    hide Gone;
  }

  lemma {:induction false} QuarantineRaises(h: Health, results: seq<QuarantineResult>)
    ensures var n := NoteQuarantine(h, results);
            n.issueKeys == h.issueKeys
            && ((exists r :: r in results && !r.Stored?) ==> n.incomplete && n.persistent)
  {
    if results != [] {
      QuarantineRaises(h, results[..|results| - 1]);
      assert results == results[..|results| - 1] + [results[|results| - 1]];
    }
  }

  /** A record that is evidence of a gap, and the one that is evidence of recovery. */
  predicate Degrades(r: Record) {
    match r
    case HealthIssue(_, _) => true
    case ScanCompleted(o) => o == Incomplete
    case ReconciliationCompleted(o) => o == Incomplete
    case MetadataInventoryCompleted(o) => o != MetadataInventoryComplete
    case Heartbeat(incomplete, _) => incomplete
    case _ => false
  }

  predicate Heals(r: Record) {
    r == Heartbeat(false, true)
  }

  /** Some record degrades, and none after it heals. */
  ghost predicate DegradedBy(records: seq<Record>) {
    exists i :: 0 <= i < |records| && Degrades(records[i]) && forall j :: i < j < |records| ==> !Heals(records[j])
  }

  lemma DegradedNext(front: seq<Record>, last: Record)
    ensures DegradedBy(front + [last]) <==> Degrades(last) || (DegradedBy(front) && !Heals(last))
  {
    var all := front + [last];
    if DegradedBy(front) && !Heals(last) {
      var i :| 0 <= i < |front| && Degrades(front[i]) && forall j :: i < j < |front| ==> !Heals(front[j]);
      assert Degrades(all[i]);
    }
    if Degrades(last) {
      assert Degrades(all[|front|]);
    }
    if DegradedBy(all) && !Degrades(last) {
      var i :| 0 <= i < |all| && Degrades(all[i]) && forall j :: i < j < |all| ==> !Heals(all[j]);
      assert Degrades(front[i]) && !Heals(all[|front|]);
      assert forall j :: i < j < |front| ==> front[j] == all[j];
    }
    hide Degrades;
    hide Heals;
  }

  /** Some record reports a recovery or a complete inventory. */
  ghost predicate Inventoried(records: seq<Record>) {
    exists r :: r in records && (Heals(r) || r == MetadataInventoryCompleted(MetadataInventoryComplete))
  }

  lemma InventoriedNext(front: seq<Record>, last: Record)
    ensures Inventoried(front + [last]) <==>
            Inventoried(front) || Heals(last) || last == MetadataInventoryCompleted(MetadataInventoryComplete)
  {
    assert last in front + [last];
    assert forall r :: r in front + [last] <==> r in front || r == last;
    hide Heals;
  }

  /** The state of the sink within a session is a matter of history alone: degraded exactly when some
      record was evidence of a gap and none since of recovery; healthy exactly when it is not degraded
      and a recovery or a complete inventory was reported; inventorying otherwise. */
  lemma {:induction false} SinkIsHistory(more: seq<Record>)
    requires SessionStarted !in more && SessionCompleted !in more
    ensures var state := SinkState([SessionStarted] + more);
            && (state == Degraded <==> DegradedBy(more))
            && (state == Healthy <==> !DegradedBy(more) && Inventoried(more))
            && (state == InventoryingMetadata || state == Degraded || state == Healthy)
  {
    hide *;
    if more == [] {
      FreshSink();
      assert [SessionStarted] + more == [SessionStarted];
      NothingTold();
    } else {
      var front, last := more[..|more| - 1], more[|more| - 1];
      assert more == front + [last] && [SessionStarted] + more == ([SessionStarted] + front) + [last];
      SinkIsHistory(front);
      SinkAfter([SessionStarted] + front, last);
      FoldShows(SinkState([SessionStarted] + front), last);
      DegradedNext(front, last);
      InventoriedNext(front, last);
    }
  }

  lemma FreshSink()
    ensures SinkState([SessionStarted]) == InventoryingMetadata
  {
    assert SinkState([]) == Starting;
  }

  lemma NothingTold()
    ensures !DegradedBy([]) && !Inventoried([])
  {
  }

  lemma FoldShows(state: OperationalState, r: Record)
    requires r != SessionStarted && r != SessionCompleted
    requires state == InventoryingMetadata || state == Degraded || state == Healthy
    ensures var n := Fold(state, r);
            && (n == Degraded <==> Degrades(r) || (state == Degraded && !Heals(r)))
            && (n == Healthy <==> n != Degraded
                                  && (state == Healthy || Heals(r)
                                      || r == MetadataInventoryCompleted(MetadataInventoryComplete)))
            && (n == InventoryingMetadata || n == Degraded || n == Healthy)
  {
  }

  lemma SinkStops(h: Health)
    ensures SinkState(Emit(h, SessionCompleted).records) == Stopped
    ensures Emit(h, SessionCompleted) == h.(records := h.records + [SessionCompleted])
  {
    SinkAfter(h.records, SessionCompleted);
  }

  /** A heartbeat can leave the sink healthy only if the flag it carried was false. */
  lemma HealthyHeartbeat(records: seq<Record>, incomplete: bool, inventoryComplete: bool)
    ensures SinkState(records + [Heartbeat(incomplete, inventoryComplete)]) == Healthy ==> !incomplete
    ensures SinkState(records) == Degraded && SinkState(records + [Heartbeat(incomplete, inventoryComplete)]) == Healthy
            ==> inventoryComplete
  {
  }

  /** Over any record stream of one session: a degraded sink becomes healthy again only through a
      heartbeat that reports a complete inventory with a false flag. */
  lemma {:induction false} RecoveryNeedsInventory(records: seq<Record>, more: seq<Record>)
    requires SinkState(records) == Degraded && SinkState(records + more) == Healthy
    requires SessionStarted !in more
    requires SessionCompleted !in more
    ensures Heartbeat(false, true) in more
  {
    assert more == [] ==> records + more == records;
    if more != [] {
      var front, last := more[..|more| - 1], more[|more| - 1];
      assert records + more == (records + front) + [last];
      SinkAfter(records + front, last);
      if last != Heartbeat(false, true) && SinkState(records + front) == Healthy {
        RecoveryNeedsInventory(records, front);
      } else if last != Heartbeat(false, true) {
        StaysInSession(records, front);
      }
    }
  }

  lemma {:induction false} StaysInSession(records: seq<Record>, more: seq<Record>)
    requires SinkState(records) == Degraded && SessionStarted !in more && SessionCompleted !in more
    ensures SinkState(records + more) in {Degraded, Healthy}
  {
    if more == [] {
      assert records + more == records;
    } else {
      var front, last := more[..|more| - 1], more[|more| - 1];
      assert records + more == (records + front) + [last];
      SinkAfter(records + front, last);
      StaysInSession(records, front);
    }
  }
}
