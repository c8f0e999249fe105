/**
 What the metadata cache is worth: when a cached pass has covered the contents that a full pass
 would read, and when it stands on an inventory alone.
 */
module WatchCoverage {
  import opened Orders
  import opened Paths
  import DQ = DebounceQueue
  import opened WatchHealth
  import opened WatchSession

  // ---------- one pass ----------

  /** Content is a function of the fingerprint: every read of a file under a fingerprint gave the
      same digest. */
  ghost predicate ContentByFingerprint(evidence: set<Evidence>, content: (Key, Fingerprint) -> Digest) {
    forall e :: e in evidence && e.read.Some? ==> e.read.value == content(e.key, e.fingerprint)
  }

  /** Where content is a function of the fingerprint, a finished content pass has covered exactly
      what a full pass would read now if and only if every file it left to the cache had been read,
      and not merely inventoried, under its fingerprint. */
  lemma CachedPassEqualsFullRead(cfg: DQ.Config, s: Session, step: Step, content: (Key, Fingerprint) -> Digest)
    requires Reachable(cfg, s) && Enabled(s, step) && step.FinishPass? && !s.pass.value.metadataOnly
    requires ContentByFingerprint(s.evidence, content)
    ensures var p := s.pass.value;
            (forall k, f :: (k, Some(f)) in p.visited && k !in p.unresolved ==>
               Evidence(k, f, Some(content(k, f))) in s.evidence)
            <==> (forall k, f :: (k, f) in p.skipped && k !in p.unresolved ==> WasRead(s.evidence, k, f))
  {
    hide *;
    ReachableParts(cfg, s);
    FinishIs(cfg, s, step);
    PassFacts(s);
    var p := s.pass.value;
    forall k, f | (k, Some(f)) in p.visited && k !in p.unresolved && WasRead(s.evidence, k, f)
      ensures Evidence(k, f, Some(content(k, f))) in s.evidence
    {
      ReadGaveContent(s.evidence, content, k, f);
    }
    forall k, f | (k, f) in p.skipped && Evidence(k, f, Some(content(k, f))) in s.evidence
      ensures WasRead(s.evidence, k, f)
    {
      ContentWasRead(s.evidence, k, f, content(k, f));
    }
  }

  lemma ContentWasRead(evidence: set<Evidence>, k: Key, f: Fingerprint, d: Digest)
    requires Evidence(k, f, Some(d)) in evidence
    ensures WasRead(evidence, k, f)
  {
  }

  lemma ReadGaveContent(evidence: set<Evidence>, content: (Key, Fingerprint) -> Digest, k: Key, f: Fingerprint)
    requires ContentByFingerprint(evidence, content) && WasRead(evidence, k, f)
    ensures Evidence(k, f, Some(content(k, f))) in evidence
  {
  }

  /** What the invariant says at the end of a content pass. */
  lemma PassFacts(s: Session)
    requires CacheInv(s) && s.pass.Some? && s.pass.value.awaiting.None? && !s.pass.value.metadataOnly
    ensures var p := s.pass.value;
            && (forall k, f :: (k, Some(f)) in p.visited && k !in p.unresolved ==>
                  WasRead(s.evidence, k, f) || (k, f) in p.skipped)
            && (forall k, f :: (k, f) in p.skipped ==> (k, Some(f)) in p.visited)
            && (forall k :: k in p.current ==>
                  WasRead(s.evidence, k, p.current[k]) || (k, p.current[k]) in p.skipped)
            && (p.full ==> p.skipped == {})
  {
    var p := s.pass.value;
    forall k, f | (k, Some(f)) in p.visited && k !in p.unresolved
      ensures WasRead(s.evidence, k, f) || (k, f) in p.skipped
    {
      assert Covered(s.evidence, p, k, Some(f));
    }
    hide WasRead;
    hide Backed;
    hide Covered;
  }

  // ---------- after a full pass ----------

  /** Every cached fingerprint, and every file the running pass left to the cache, was read. */
  ghost predicate CacheWasRead(s: Session) {
    && (forall k :: k in s.h.snapshot ==> WasRead(s.evidence, k, s.h.snapshot[k]))
    && (s.pass.Some? ==>
          !s.pass.value.metadataOnly
          && forall k, f :: (k, f) in s.pass.value.skipped ==> WasRead(s.evidence, k, f))
  }

  /** A full pass leaves a cache of files that it read. */
  lemma FullPassReadsCache(cfg: DQ.Config, s: Session, step: Step)
    requires s.pass.Some? && s.pass.value.full && Inv(cfg, s) && Enabled(s, step) && step.FinishPass?
    ensures CacheWasRead(Next(cfg, s, step))
  {
    hide QueueInv;
    SessionParts(s);
    hide SessionInv;
    assert !s.pass.value.metadataOnly by { FullIsNotInventory(s); }
    PassFacts(s);
    PassInstalls(cfg, s, step);
    hide Next;
    hide CacheInv;
    hide WasRead;
  }

  lemma FullIsNotInventory(s: Session)
    requires CacheInv(s) && s.pass.Some?
    ensures !(s.pass.value.full && s.pass.value.metadataOnly)
  {
  }

  predicate StartsInventory(step: Step) {
    step.StartPass? && step.metadataOnly
  }

  lemma MoreOfTheSame(s: Session, n: Session)
    requires CacheWasRead(s) && s.evidence <= n.evidence && n.h.snapshot.Items <= s.h.snapshot.Items
    requires n.pass.Some? ==>
               !n.pass.value.metadataOnly
               && forall x :: x in n.pass.value.skipped ==>
                    x in s.h.snapshot.Items || (s.pass.Some? && x in s.pass.value.skipped)
    ensures CacheWasRead(n)
  {
    forall k | k in n.h.snapshot ensures WasRead(n.evidence, k, n.h.snapshot[k]) {
      assert (k, n.h.snapshot[k]) in s.h.snapshot.Items;
      MoreRead(s.evidence, n.evidence, k, n.h.snapshot[k]);
    }
    if n.pass.Some? {
      forall k, f | (k, f) in n.pass.value.skipped ensures WasRead(n.evidence, k, f) {
        assert (k, f) in s.h.snapshot.Items ==> k in s.h.snapshot && s.h.snapshot[k] == f;
        MoreRead(s.evidence, n.evidence, k, f);
      }
    }
    hide WasRead;
  }

  /** The evidence, the cache and the files left to it after a step that does not end a pass. */
  lemma CacheFrame(cfg: DQ.Config, s: Session, step: Step)
    requires HealthInv(s.h) && Enabled(s, step) && !step.FinishPass? && !StartsInventory(step)
    ensures var n := Next(cfg, s, step);
            && s.evidence <= n.evidence && n.h.snapshot.Items <= s.h.snapshot.Items
            && (n.pass.Some? ==>
                  && (s.pass.None? ==> !n.pass.value.metadataOnly && n.pass.value.skipped == {})
                  && (s.pass.Some? ==>
                        n.pass.value.metadataOnly == s.pass.value.metadataOnly
                        && n.pass.value.skipped <= s.pass.value.skipped + s.h.snapshot.Items))
  {
    NextEffect(cfg, s, step);
    hide HealthInv;
    hide SinkFollows;
    hide RaiseIssue;
    hide Emit;
    match step
    case Visit(key, fingerprint) => VisitSkips(s, key, fingerprint); hide VisitFile;
    case Inspect(hash) => InspectSkips(s, hash); hide InspectFile;
    case _ => PassStays(cfg, s, step); hide Next;
  }

  lemma VisitSkips(s: Session, key: Key, fingerprint: Option<Fingerprint>)
    requires s.pass.Some?
    ensures var n := VisitFile(s, key, fingerprint);
            && s.evidence <= n.evidence && n.pass.Some?
            && n.pass.value.metadataOnly == s.pass.value.metadataOnly
            && n.pass.value.skipped <= s.pass.value.skipped + s.h.snapshot.Items
  {
  }

  lemma InspectSkips(s: Session, hash: Hash)
    requires s.pass.Some? && s.pass.value.awaiting.Some?
    ensures var n := InspectFile(s, hash);
            && s.evidence <= n.evidence && n.pass.Some?
            && n.pass.value.metadataOnly == s.pass.value.metadataOnly
            && n.pass.value.skipped == s.pass.value.skipped
  {
  }

  lemma PassStays(cfg: DQ.Config, s: Session, step: Step)
    requires Enabled(s, step) && !step.FinishPass? && !step.Visit? && !step.Inspect? && !StartsInventory(step)
    ensures var n := Next(cfg, s, step);
            && n.evidence == s.evidence
            && (n.pass == s.pass || n.pass.None?
                || (s.pass.None? && !n.pass.value.metadataOnly && n.pass.value.skipped == {}))
  {
    hide DQ.Next;
    hide DQ.Enabled;
    hide DQ.Clear;
    hide RaiseIssue;
    hide ScanPending;
    hide BeatFlag;
    hide Recoverable;
    hide Emit;
    match step
    case PipelineCheck => CheckStays(s); hide CheckPipeline;
    case FinalCheck => CheckStays(s); hide CheckPipeline;
    case _ => hide CheckPipeline;
  }

  lemma CheckStays(s: Session)
    ensures CheckPipeline(s).evidence == s.evidence && CheckPipeline(s).pass == s.pass
  {
  }

  lemma StepKeepsCacheRead(cfg: DQ.Config, s: Session, step: Step)
    requires Inv(cfg, s) && Enabled(s, step) && CacheWasRead(s) && !StartsInventory(step)
    ensures CacheWasRead(Next(cfg, s, step))
  {
    hide QueueInv;
    SessionParts(s);
    hide SessionInv;
    if step.FinishPass? {
      PassFacts(s);
      PassInstalls(cfg, s, step);
    } else {
      CacheFrame(cfg, s, step);
      MoreOfTheSame(s, Next(cfg, s, step));
    }
    hide Next;
    hide CacheInv;
    hide WasRead;
    if !step.FinishPass? { hide CacheWasRead; }
  }

  lemma {:induction false} RunKeepsCacheRead(cfg: DQ.Config, s: Session, steps: seq<Step>)
    requires Inv(cfg, s) && Feasible(cfg, s, steps) && CacheWasRead(s)
    requires forall step :: step in steps ==> !StartsInventory(step)
    ensures Inv(cfg, Run(cfg, s, steps)) && CacheWasRead(Run(cfg, s, steps))
    decreases |steps|
  {
    hide Inv;
    hide Next;
    hide CacheWasRead;
    if steps != [] {
      NextKeepsInv(cfg, s, steps[0]);
      StepKeepsCacheRead(cfg, s, steps[0]);
      RunKeepsCacheRead(cfg, Next(cfg, s, steps[0]), steps[1..]);
    }
  }

  /** Once a full pass has ended, and as long as no inventory is taken again, every file that any
      later pass walks and resolves has been read under the fingerprint the walk reported, whether
      that pass read it or left it to the cache. */
  lemma ReadAfterAFullPass(cfg: DQ.Config, s: Session, full: Step, steps: seq<Step>, end: Step,
                           key: Key, f: Fingerprint)
    requires Reachable(cfg, s) && Enabled(s, full) && full.FinishPass? && s.pass.value.full
    requires Feasible(cfg, Next(cfg, s, full), steps) && forall step :: step in steps ==> !StartsInventory(step)
    requires var n := Run(cfg, Next(cfg, s, full), steps);
             Enabled(n, end) && end.FinishPass?
             && (key, Some(f)) in n.pass.value.visited && key !in n.pass.value.unresolved
    ensures WasRead(Run(cfg, Next(cfg, s, full), steps).evidence, key, f)
  {
    hide *;
    ReachableIsSound(cfg, s);
    FinishIs(cfg, s, full);
    FullPassReadsCache(cfg, s, full);
    NextKeepsInv(cfg, s, full);
    var m := Next(cfg, s, full);
    RunKeepsCacheRead(cfg, m, steps);
    var n := Run(cfg, m, steps);
    FinishIs(cfg, n, end);
    ResolvedWasRead(cfg, n, end, key, f);
  }

  lemma ResolvedWasRead(cfg: DQ.Config, n: Session, end: Step, key: Key, f: Fingerprint)
    requires n.pass.Some? && Inv(cfg, n) && CacheWasRead(n) && Enabled(n, end) && end.FinishPass?
    requires (key, Some(f)) in n.pass.value.visited && key !in n.pass.value.unresolved
    ensures WasRead(n.evidence, key, f)
  {
    hide QueueInv;
    SessionParts(n);
    hide SessionInv;
    PassFacts(n);
    hide CacheInv;
    hide WasRead;
  }

  // ---------- before any full pass ----------

  /** One pass over a single file. */
  function OneFilePass(metadataOnly: bool, key: Key, f: Fingerprint, special: nat): seq<Step> {
    [StartPass(false, metadataOnly), Visit(key, Some(f)), FinishPass([], special, 0, 0, [])]
  }

  function Walked(s: Session, metadataOnly: bool, key: Key, f: Fingerprint): Session {
    VisitFile(Begin(s, false, metadataOnly), key, Some(f))
  }

  function EndedOf(s: Session, metadataOnly: bool, key: Key, f: Fingerprint, special: nat): Session {
    var b := Walked(s, metadataOnly, key, f);
    EndPass(b, PassReport(b.pass.value, [], special, 0, 0, []))
  }

  lemma OneFilePassRuns(cfg: DQ.Config, s: Session, metadataOnly: bool, key: Key, f: Fingerprint, special: nat)
    requires Idle(s) && (metadataOnly || s.h.snapshot == map[key := f])
    requires !s.m.q.overflowed && !s.ingestFailed && !s.h.persistent
    ensures var steps := OneFilePass(metadataOnly, key, f, special);
            && Feasible(cfg, s, steps)
            && var n := Run(cfg, s, steps);
               && Idle(n) && n.h.snapshot == map[key := f] && n.m == s.m && !n.ingestFailed && !n.h.persistent
               && n.evidence == (if metadataOnly then s.evidence + {Evidence(key, f, None)} else s.evidence)
               && n.h.incomplete == (special > 0 || (s.h.incomplete && metadataOnly))
  {
    var steps := OneFilePass(metadataOnly, key, f, special);
    var b := Walked(s, metadataOnly, key, f);
    WalkedFacts(s, metadataOnly, key, f);
    EndedPass(s, metadataOnly, key, f, special);
    PassStepsRun(cfg, s, metadataOnly, key, f, special);
    hide *;
    RunAlong(cfg, [s, Begin(s, false, metadataOnly), b, EndedOf(s, metadataOnly, key, f, special)], steps);
  }

  lemma PassStepsRun(cfg: DQ.Config, s: Session, metadataOnly: bool, key: Key, f: Fingerprint, special: nat)
    requires Idle(s) && Walking(Walked(s, metadataOnly, key, f))
    requires Walked(s, metadataOnly, key, f).pass.value.awaiting.None?
    ensures var steps := OneFilePass(metadataOnly, key, f, special);
            var a, b := Begin(s, false, metadataOnly), Walked(s, metadataOnly, key, f);
            && |steps| == 3
            && Enabled(s, steps[0]) && Next(cfg, s, steps[0]) == a
            && Enabled(a, steps[1]) && Next(cfg, a, steps[1]) == b
            && Enabled(b, steps[2]) && Next(cfg, b, steps[2]) == EndedOf(s, metadataOnly, key, f, special)
  {
    hide EndPass;
    hide VisitFile;
    hide PassReport;
  }

  lemma WalkedFacts(s: Session, metadataOnly: bool, key: Key, f: Fingerprint)
    requires Idle(s) && (metadataOnly || s.h.snapshot == map[key := f])
    ensures var b := Walked(s, metadataOnly, key, f);
            && Walking(b) && b.m == s.m && b.ingestFailed == s.ingestFailed
            && b.h == s.h.(snapshot := b.h.snapshot)
            && b.evidence == (if metadataOnly then s.evidence + {Evidence(key, f, None)} else s.evidence)
            && var p := b.pass.value;
               && p.metadataOnly == metadataOnly && !p.full && p.start == s.h && p.issues == [] && p.tooLarge == 0
               && p.unresolved == {} && p.awaiting.None? && p.current == map[key := f]
  {
  }

  lemma EndedPass(s: Session, metadataOnly: bool, key: Key, f: Fingerprint, special: nat)
    requires Idle(s) && (metadataOnly || s.h.snapshot == map[key := f])
    requires !s.m.q.overflowed && !s.ingestFailed && !s.h.persistent
    ensures var n := EndedOf(s, metadataOnly, key, f, special);
            && Idle(n) && n.h.snapshot == map[key := f] && n.m == s.m && !n.ingestFailed && !n.h.persistent
            && n.evidence == (if metadataOnly then s.evidence + {Evidence(key, f, None)} else s.evidence)
            && n.h.incomplete == (special > 0 || (s.h.incomplete && metadataOnly))
  {
    var b := Walked(s, metadataOnly, key, f);
    WalkedFacts(s, metadataOnly, key, f);
    hide Walked;
    var report := PassReport(b.pass.value, [], special, 0, 0, []);
    PassOfOne(b.h, report, PassKind(b.pass.value), special);
    hide FinishScan;
    hide Kept;
  }

  lemma PassOfOne(h: Health, report: Report, kind: ScanKind, special: nat)
    requires report.issues == [] && report.special == special && report.tooLarge == 0 && report.quarantine == []
    ensures var n := FinishScan(h, report, kind);
            && (special == 0 ==> n.persistent == h.persistent && n.generation == h.generation)
            && n.incomplete == (h.incomplete || special > 0) && (n.persistent ==> h.persistent)
            && Kept(report.issues, false) == []
  {
  }

  lemma {:induction false} RunInTurn(cfg: DQ.Config, s: Session, a: seq<Step>, b: seq<Step>)
    requires Feasible(cfg, s, a) && Feasible(cfg, Run(cfg, s, a), b)
    ensures Feasible(cfg, s, a + b) && Run(cfg, s, a + b) == Run(cfg, Run(cfg, s, a), b)
    decreases |a|
  {
    hide Next;
    hide Enabled;
    if a == [] {
      assert a + b == b;
    } else {
      assert (a + b)[0] == a[0] && (a + b)[1..] == a[1..] + b;
      RunInTurn(cfg, Next(cfg, s, a[0]), a[1..], b);
    }
  }

  /** Before any full pass a cached pass may stand on the inventory alone: after the inventory, a
      pass that meets a special file, and one that no longer does, health is restored although the
      file was never read. */
  lemma InventoryStandsForReading(cfg: DQ.Config, clock: DQ.Time, key: Key, f: Fingerprint)
    ensures var before := OneFilePass(true, key, f, 0) + OneFilePass(false, key, f, 1);
            var steps := before + OneFilePass(false, key, f, 0);
            && Feasible(cfg, Start(clock), before) && Run(cfg, Start(clock), before).h.incomplete
            && Feasible(cfg, Start(clock), steps)
            && var n := Run(cfg, Start(clock), steps);
               !n.h.incomplete && n.h.snapshot == map[key := f] && !WasRead(n.evidence, key, f)
  {
    var a, b, c := OneFilePass(true, key, f, 0), OneFilePass(false, key, f, 1), OneFilePass(false, key, f, 0);
    var s := Start(clock);
    OneFilePassRuns(cfg, s, true, key, f, 0);
    var t := Run(cfg, s, a);
    OneFilePassRuns(cfg, t, false, key, f, 1);
    RunInTurn(cfg, s, a, b);
    var u := Run(cfg, t, b);
    OneFilePassRuns(cfg, u, false, key, f, 0);
    RunInTurn(cfg, s, a + b, c);
    assert Run(cfg, u, c).evidence == {Evidence(key, f, None)};
    hide Run;
    hide Feasible;
    hide OneFilePass;
  }
}
