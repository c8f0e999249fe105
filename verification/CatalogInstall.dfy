/** Rollback acceptance of advisory catalogs, and runs of catalog installs with crashes. */
module CatalogInstall {
  import opened Paths

  /** What the rollback state keeps of one source; `semantic` is the digest of its advisories. */
  datatype SourceState = SourceState(sourceId: string, version: int, semantic: int)

  /** Catalog sources and state sources have distinct ids; the validators check that first. */
  predicate DistinctIds(sources: seq<SourceState>) {
    forall i, j :: 0 <= i < j < |sources| ==> sources[i].sourceId != sources[j].sourceId
  }

  datatype Verdict = Accepted | SourceRemoved | SourceRolledBack(sourceId: string) | VersionReused(sourceId: string)

  function Table(sources: seq<SourceState>): map<string, SourceState> {
    if sources == [] then map[]
    else Table(sources[..|sources| - 1])[sources[|sources| - 1].sourceId := sources[|sources| - 1]]
  }

  /** The first source of the old state that the new catalog rolls back or rewrites. */
  function FirstRegression(older: seq<SourceState>, table: map<string, SourceState>): Verdict
    requires forall s :: s in older ==> s.sourceId in table
  {
    if older == [] then Accepted
    else
      var front, last := older[..|older| - 1], older[|older| - 1];
      assert older == front + [last];
      var v := FirstRegression(front, table);
      if v != Accepted then v
      else if table[last.sourceId].version < last.version then SourceRolledBack(last.sourceId)
      else if table[last.sourceId].version == last.version && table[last.sourceId].semantic != last.semantic
        then VersionReused(last.sourceId)
      else Accepted
  }

  /** `_check_rollback` */
  function CheckRollback(older: seq<SourceState>, newer: seq<SourceState>): Verdict {
    var table := Table(newer);
    if exists s :: s in older && s.sourceId !in table then SourceRemoved else FirstRegression(older, table)
  }

  // ---------- what acceptance means ----------

  /** No source disappears, no version decreases, and an equal version means equal content. */
  ghost predicate Succeeds(older: seq<SourceState>, newer: seq<SourceState>) {
    forall s :: s in older ==> exists t :: t in newer && Follows(s, t)
  }

  predicate Follows(s: SourceState, t: SourceState) {
    && s.sourceId == t.sourceId && s.version <= t.version
    && (s.version == t.version ==> s.semantic == t.semantic)
  }

  lemma {:induction false} TableHolds(sources: seq<SourceState>)
    requires DistinctIds(sources)
    ensures forall s :: s in sources ==> s.sourceId in Table(sources) && Table(sources)[s.sourceId] == s
    ensures forall x :: x in Table(sources) ==> Table(sources)[x] in sources && Table(sources)[x].sourceId == x
  {
    if sources != [] {
      var front := sources[..|sources| - 1];
      assert sources == front + [sources[|sources| - 1]];
      TableHolds(front);
    }
  }

  lemma {:induction false} NoRegressionMeans(older: seq<SourceState>, table: map<string, SourceState>)
    requires forall s :: s in older ==> s.sourceId in table
    requires forall x :: x in table ==> table[x].sourceId == x
    ensures FirstRegression(older, table) == Accepted <==> forall s :: s in older ==> Follows(s, table[s.sourceId])
  {
    if older != [] {
      var front := older[..|older| - 1];
      assert older == front + [older[|older| - 1]];
      NoRegressionMeans(front, table);
    }
  }

  /** The check accepts exactly the catalogs that succeed the old state. */
  lemma CheckMeansSucceeds(older: seq<SourceState>, newer: seq<SourceState>)
    requires DistinctIds(newer)
    ensures CheckRollback(older, newer) == Accepted <==> Succeeds(older, newer)
  {
    var table := Table(newer);
    TableHolds(newer);
    if forall s :: s in older ==> s.sourceId in table {
      NoRegressionMeans(older, table);
    } else {
      var s :| s in older && s.sourceId !in table;
      assert !exists t :: t in newer && Follows(s, t);
    }
  }

  lemma SucceedsTrans(a: seq<SourceState>, b: seq<SourceState>, c: seq<SourceState>)
    requires Succeeds(a, b) && Succeeds(b, c)
    ensures Succeeds(a, c)
  {
  }

  /** If catalogs are accepted step by step, each is also accepted against the state left by any
      earlier one. */
  lemma {:induction false} AcceptanceComposes(chain: seq<seq<SourceState>>, i: nat, j: nat)
    requires i < j < |chain| && forall k :: 0 <= k < |chain| ==> DistinctIds(chain[k])
    requires forall k :: 0 <= k < |chain| - 1 ==> CheckRollback(chain[k], chain[k + 1]) == Accepted
    ensures CheckRollback(chain[i], chain[j]) == Accepted
    decreases j - i
  {
    if i + 1 < j {
      AcceptanceComposes(chain, i + 1, j);
      CheckMeansSucceeds(chain[i], chain[i + 1]);
      CheckMeansSucceeds(chain[i + 1], chain[j]);
      SucceedsTrans(chain[i], chain[i + 1], chain[j]);
      CheckMeansSucceeds(chain[i], chain[j]);
    }
  }

  // ---------- installs with crashes ----------

  /** An encoded catalog: its digest and what its sources contribute to the rollback state. */
  datatype Catalog = Catalog(digest: int, sources: seq<SourceState>)

  datatype State = State(digest: int, sources: seq<SourceState>)

  /** The two files kept under the digest of a replaced catalog. */
  datatype Backup = Backup(catalog: Option<Catalog>, state: Option<State>)

  datatype Disk = Disk(output: Option<Catalog>, state: Option<State>, backups: map<int, Backup>)

  const EMPTY := Disk(None, None, map[])

  /** `_read_existing` refuses one file without the other and a catalog the state does not name. */
  predicate Readable(disk: Disk) {
    && disk.output.Some? == disk.state.Some?
    && (disk.output.Some? ==> disk.output.value.digest == disk.state.value.digest)
  }

  datatype Result =
    | Installed | Updated | Unchanged | Unreadable | Refused(verdict: Verdict)
    | BackupIncomplete | BackupDiffers | Crashed

  function BackupOf(disk: Disk, digest: int): Backup {
    if digest in disk.backups then disk.backups[digest] else Backup(None, None)
  }

  /** What the existing backup of the current catalog stops: an incomplete one, or one of another
      catalog. */
  function BackupProblem(disk: Disk): Option<Result> {
    if disk.state.None? || disk.output.None? then None
    else
      var b := BackupOf(disk, disk.state.value.digest);
      if b.catalog.None? && b.state.None? then None
      else if b.catalog.None? || b.state.None? then Some(BackupIncomplete)
      else if b.catalog != disk.output then Some(BackupDiffers)
      else None
  }

  /** A backup still has to be written. */
  predicate NeedsBackup(disk: Disk) {
    disk.state.Some? && BackupOf(disk, disk.state.value.digest) == Backup(None, None)
  }

  datatype Write = BackupCatalog | BackupState | Output | CommitState

  /** The atomic writes of one install, in order. */
  function Writes(disk: Disk): seq<Write> {
    (if NeedsBackup(disk) then [BackupCatalog, BackupState] else []) + [Output, CommitState]
  }

  function Perform(disk: Disk, c: Catalog, write: Write): Disk {
    match write
    case BackupCatalog =>
      if disk.state.None? then disk
      else
        var d := disk.state.value.digest;
        disk.(backups := disk.backups[d := BackupOf(disk, d).(catalog := disk.output)])
    case BackupState =>
      if disk.state.None? then disk
      else
        var d := disk.state.value.digest;
        disk.(backups := disk.backups[d := BackupOf(disk, d).(state := disk.state)])
    case Output => disk.(output := Some(c))
    case CommitState => disk.(state := Some(State(c.digest, c.sources)))
  }

  function PerformAll(disk: Disk, c: Catalog, writes: seq<Write>): Disk {
    if writes == [] then disk
    else Perform(PerformAll(disk, c, writes[..|writes| - 1]), c, writes[|writes| - 1])
  }

  /** What the installer decides before it writes anything, if it does not go on to write. */
  function Decision(disk: Disk, c: Catalog): Option<Result> {
    if !Readable(disk) then Some(Unreadable)
    else
      var verdict := if disk.state.Some? then CheckRollback(disk.state.value.sources, c.sources) else Accepted;
      if verdict != Accepted then Some(Refused(verdict))
      else if disk.state.Some? && disk.state.value.digest == c.digest then Some(Unchanged)
      else BackupProblem(disk)
  }

  /** One `install_catalog` under its lock; `written` counts the writes before a crash, and a number
      no smaller than all of them means none. */
  function Install(disk: Disk, c: Catalog, written: nat): (Disk, Result) {
    var d := Decision(disk, c);
    if d.Some? then (disk, d.value)
    else
      var writes := Writes(disk);
      if written < |writes| then (PerformAll(disk, c, writes[..written]), Crashed)
      else (PerformAll(disk, c, writes), if disk.state.Some? then Updated else Installed)
  }

  datatype Attempt = Attempt(catalog: Catalog, written: nat)

  /** The disk after a series of attempts, with the states committed on the way. */
  function After(disk: Disk, committed: seq<seq<SourceState>>, attempts: seq<Attempt>): (Disk, seq<seq<SourceState>>)
    decreases |attempts|
  {
    if attempts == [] then (disk, committed)
    else
      var (next, result) := Install(disk, attempts[0].catalog, attempts[0].written);
      After(next, Commits(committed, attempts[0].catalog, result), attempts[1..])
  }

  function Commits(committed: seq<seq<SourceState>>, c: Catalog, result: Result): seq<seq<SourceState>> {
    if result.Installed? || result.Updated? then committed + [c.sources] else committed
  }

  ghost predicate Chained(committed: seq<seq<SourceState>>) {
    forall i, j :: 0 <= i < j < |committed| ==> Succeeds(committed[i], committed[j])
  }

  ghost predicate Matches(disk: Disk, committed: seq<seq<SourceState>>) {
    if committed == [] then disk.state.None?
    else disk.state.Some? && disk.state.value.sources == committed[|committed| - 1]
  }

  /** What each prefix of the writes leaves: the rollback state moves with the last one only. */
  lemma WritesEffect(disk: Disk, c: Catalog, written: nat)
    requires Readable(disk) && written <= |Writes(disk)|
    ensures var writes := Writes(disk);
            var n := PerformAll(disk, c, writes[..written]);
            && n.state == (if written == |writes| then Some(State(c.digest, c.sources)) else disk.state)
            && n.output == (if written + 1 >= |writes| then Some(c) else disk.output)
            && n.backups ==
               (if !NeedsBackup(disk) || written == 0 then disk.backups
                else disk.backups[disk.state.value.digest :=
                       Backup(disk.output, if written == 1 then None else disk.state)])
  {
    var writes := Writes(disk);
    if NeedsBackup(disk) {
      assert writes == [BackupCatalog, BackupState, Output, CommitState];
      UnfoldWrites(disk, c, writes, written);
    } else {
      assert writes == [Output, CommitState];
      UnfoldWrites(disk, c, writes, written);
    }
  }

  lemma UnfoldWrites(disk: Disk, c: Catalog, writes: seq<Write>, written: nat)
    requires written <= |writes| <= 4
    ensures written == 0 ==> PerformAll(disk, c, writes[..written]) == disk
    ensures written > 0 ==>
              PerformAll(disk, c, writes[..written])
              == Perform(PerformAll(disk, c, writes[..written - 1]), c, writes[written - 1])
    ensures written > 1 ==>
              PerformAll(disk, c, writes[..written - 1])
              == Perform(PerformAll(disk, c, writes[..written - 2]), c, writes[written - 2])
    ensures written > 2 ==>
              PerformAll(disk, c, writes[..written - 2])
              == Perform(PerformAll(disk, c, writes[..written - 3]), c, writes[written - 3])
    ensures written > 3 ==>
              PerformAll(disk, c, writes[..written - 3])
              == Perform(PerformAll(disk, c, writes[..written - 4]), c, writes[written - 4])
    ensures PerformAll(disk, c, writes[..0]) == disk
  {
    hide Perform;
    forall k | 0 < k <= |writes|
      ensures PerformAll(disk, c, writes[..k]) == Perform(PerformAll(disk, c, writes[..k - 1]), c, writes[k - 1])
    {
      assert writes[..k][..k - 1] == writes[..k - 1];
    }
  }

  /** Over any series of installs and crashes, every committed catalog succeeds every earlier one. */
  lemma {:induction false} CommittedCatalogsSucceed(disk: Disk, committed: seq<seq<SourceState>>,
                                                    attempts: seq<Attempt>)
    requires Chained(committed) && Matches(disk, committed)
    requires forall a :: a in attempts ==> DistinctIds(a.catalog.sources)
    ensures Chained(After(disk, committed, attempts).1)
    ensures Matches(After(disk, committed, attempts).0, After(disk, committed, attempts).1)
    decreases |attempts|
  {
    if attempts != [] {
      var c := attempts[0].catalog;
      var (next, result) := Install(disk, c, attempts[0].written);
      OneInstallCommits(disk, committed, c, attempts[0].written);
      hide Install;
      hide Matches;
      hide Chained;
      CommittedCatalogsSucceed(next, Commits(committed, c, result), attempts[1..]);
    }
  }

  lemma OneInstallCommits(disk: Disk, committed: seq<seq<SourceState>>, c: Catalog, written: nat)
    requires Chained(committed) && Matches(disk, committed) && DistinctIds(c.sources)
    ensures var (next, result) := Install(disk, c, written);
            Chained(Commits(committed, c, result)) && Matches(next, Commits(committed, c, result))
  {
    if Decision(disk, c).None? {
      var writes := Writes(disk);
      WritesEffect(disk, c, if written < |writes| then written else |writes|);
      assert writes[..|writes|] == writes;
      if written >= |writes| && committed != [] {
        CheckMeansSucceeds(disk.state.value.sources, c.sources);
        ChainGrows(committed, c.sources);
      }
    }
    hide Succeeds;
    hide CheckRollback;
    hide PerformAll;
    hide Writes;
  }

  lemma ChainGrows(committed: seq<seq<SourceState>>, sources: seq<SourceState>)
    requires Chained(committed) && committed != [] && Succeeds(committed[|committed| - 1], sources)
    ensures Chained(committed + [sources])
  {
  }

  // ---------- what one install does ----------

  /** The catalog file and the rollback state are there together and name the same catalog, or neither is. */
  predicate Paired(disk: Disk) {
    if disk.output.None? then disk.state.None?
    else disk.state.Some? && disk.state.value.digest == disk.output.value.digest
  }

  /** Which files of the backup under this digest exist. */
  predicate HasCatalog(disk: Disk, digest: int) {
    digest in disk.backups && disk.backups[digest].catalog.Some?
  }

  predicate HasState(disk: Disk, digest: int) {
    digest in disk.backups && disk.backups[digest].state.Some?
  }

  /** Another catalog than the current one, and one that may follow it. */
  ghost predicate Changes(disk: Disk, c: Catalog) {
    disk.state.Some? ==> Succeeds(disk.state.value.sources, c.sources) && c.digest != disk.state.value.digest
  }

  /** The backup of the current catalog, if any, does not stand in the way: it is absent, or complete and
      of that catalog. */
  predicate BackupFits(disk: Disk) {
    disk.state.Some? && disk.output.Some? ==>
      var d := disk.state.value.digest;
      && HasCatalog(disk, d) == HasState(disk, d)
      && (HasCatalog(disk, d) ==> disk.backups[d].catalog == disk.output)
  }

  /** The outcome of an install in every case, and what is on the disk afterwards. It writes exactly if the
      pair is sound, the catalog changes it, and the backup fits: the current pair is set aside first
      unless it was before, and catalog and rollback state follow. A crash leaves the first writes. */
  lemma InstallIsExact(disk: Disk, c: Catalog, written: nat)
    requires DistinctIds(c.sources)
    ensures var (n, r) := Install(disk, c, written);
            var goes := Paired(disk) && Changes(disk, c) && BackupFits(disk);
            var aside := disk.state.Some? && !HasCatalog(disk, disk.state.value.digest)
                         && !HasState(disk, disk.state.value.digest);
            var all := if aside then 4 else 2;
            var done := if written < all then written else all;
            && (r.Unreadable? <==> !Paired(disk))
            && (r.Refused? <==> Paired(disk) && disk.state.Some?
                                && !Succeeds(disk.state.value.sources, c.sources))
            && (r.Unchanged? <==> Paired(disk) && disk.state.Some? && c.digest == disk.state.value.digest
                                  && Succeeds(disk.state.value.sources, c.sources))
            && (r.BackupIncomplete? <==>
                  Paired(disk) && Changes(disk, c) && disk.state.Some?
                  && HasCatalog(disk, disk.state.value.digest) != HasState(disk, disk.state.value.digest))
            && (r.BackupDiffers? <==>
                  Paired(disk) && Changes(disk, c) && disk.state.Some?
                  && HasCatalog(disk, disk.state.value.digest) && HasState(disk, disk.state.value.digest)
                  && disk.backups[disk.state.value.digest].catalog != disk.output)
            && (r.Crashed? <==> goes && written < all)
            && (r.Installed? <==> goes && written >= all && disk.state.None?)
            && (r.Updated? <==> goes && written >= all && disk.state.Some?)
            && (!goes ==> n == disk)
            && (goes ==>
                  && n.output == (if done >= all - 1 then Some(c) else disk.output)
                  && n.state == (if done == all then Some(State(c.digest, c.sources)) else disk.state)
                  && n.backups ==
                     if aside && done > 0
                     then disk.backups[disk.state.value.digest :=
                            Backup(disk.output, if done > 1 then disk.state else None)]
                     else disk.backups)
  {
    DecisionIsExact(disk, c);
    AsideIs(disk);
    if Decision(disk, c).None? {
      var all := |Writes(disk)|;
      WritesEffect(disk, c, if written < all then written else all);
      assert Writes(disk)[..all] == Writes(disk);
    }
    hide Decision;
    hide Succeeds;
    hide PerformAll;
    hide NeedsBackup;
    hide Writes;
    hide Paired;
    hide BackupFits;
    hide HasCatalog;
    hide HasState;
  }

  lemma AsideIs(disk: Disk)
    ensures NeedsBackup(disk) <==> disk.state.Some? && !HasCatalog(disk, disk.state.value.digest)
                                   && !HasState(disk, disk.state.value.digest)
    ensures |Writes(disk)| == if NeedsBackup(disk) then 4 else 2
  {
  }

  lemma DecisionIsExact(disk: Disk, c: Catalog)
    requires DistinctIds(c.sources)
    ensures var d := Decision(disk, c);
            && Readable(disk) == Paired(disk)
            && (d.None? <==> Paired(disk) && Changes(disk, c) && BackupFits(disk))
            && (d == Some(Unreadable) <==> !Paired(disk))
            && (d.Some? && d.value.Refused? <==>
                  Paired(disk) && disk.state.Some? && !Succeeds(disk.state.value.sources, c.sources))
            && (d == Some(Unchanged) <==> Paired(disk) && disk.state.Some? && c.digest == disk.state.value.digest
                                          && Succeeds(disk.state.value.sources, c.sources))
            && (d == Some(BackupIncomplete) <==>
                  Paired(disk) && Changes(disk, c) && disk.state.Some?
                  && HasCatalog(disk, disk.state.value.digest) != HasState(disk, disk.state.value.digest))
            && (d == Some(BackupDiffers) <==>
                  Paired(disk) && Changes(disk, c) && disk.state.Some?
                  && HasCatalog(disk, disk.state.value.digest) && HasState(disk, disk.state.value.digest)
                  && disk.backups[disk.state.value.digest].catalog != disk.output)
            && (d.Some? ==> !d.value.Crashed? && !d.value.Installed? && !d.value.Updated?)
  {
    if disk.state.Some? {
      CheckMeansSucceeds(disk.state.value.sources, c.sources);
    }
    hide CheckRollback;
    hide Succeeds;
    hide DistinctIds;
  }

  /** What a refusal says: some source of the old state is missing, or all are there and the one named is
      the first that went back, or that changed without a new version. */
  lemma RefusalMeans(older: seq<SourceState>, newer: seq<SourceState>)
    requires DistinctIds(newer)
    ensures var v := CheckRollback(older, newer);
            && (v.SourceRemoved? <==> exists s :: s in older && forall t :: t in newer ==> t.sourceId != s.sourceId)
            && (v.SourceRolledBack? ==>
                  exists i, t :: 0 <= i < |older| && t in newer && older[i].sourceId == t.sourceId == v.sourceId
                                 && t.version < older[i].version && Succeeds(older[..i], newer))
            && (v.VersionReused? ==>
                  exists i, t :: 0 <= i < |older| && t in newer && older[i].sourceId == t.sourceId == v.sourceId
                                 && t.version == older[i].version && t.semantic != older[i].semantic
                                 && Succeeds(older[..i], newer))
  {
    var table := Table(newer);
    TableHolds(newer);
    if forall s :: s in older ==> s.sourceId in table {
      FirstRegressionAt(older, newer, table);
    }
    hide Succeeds;
    hide DistinctIds;
    hide Table;
  }

  lemma {:induction false} FirstRegressionAt(older: seq<SourceState>, newer: seq<SourceState>,
                                             table: map<string, SourceState>)
    requires forall s :: s in older ==> s.sourceId in table
    requires forall x :: x in table ==> table[x] in newer && table[x].sourceId == x
    ensures var v := FirstRegression(older, table);
            && !v.SourceRemoved?
            && (v.Accepted? ==> Succeeds(older, newer))
            && (v.SourceRolledBack? ==>
                  exists i, t :: 0 <= i < |older| && t in newer && older[i].sourceId == t.sourceId == v.sourceId
                                 && t.version < older[i].version && Succeeds(older[..i], newer))
            && (v.VersionReused? ==>
                  exists i, t :: 0 <= i < |older| && t in newer && older[i].sourceId == t.sourceId == v.sourceId
                                 && t.version == older[i].version && t.semantic != older[i].semantic
                                 && Succeeds(older[..i], newer))
  {
    if older != [] {
      var front, last := older[..|older| - 1], older[|older| - 1];
      assert older == front + [last];
      FirstRegressionAt(front, newer, table);
      var v, w := FirstRegression(front, table), FirstRegression(older, table);
      if !v.Accepted? {
        var i, t :| 0 <= i < |front| && t in newer && front[i].sourceId == t.sourceId == v.sourceId
                    && Succeeds(front[..i], newer)
                    && (if v.SourceRolledBack? then t.version < front[i].version
                        else t.version == front[i].version && t.semantic != front[i].semantic);
        assert front[..i] == older[..i] && older[i] == front[i];
      } else {
        assert older[..|older| - 1] == front && older[|older| - 1] == last && table[last.sourceId] in newer;
        if w.Accepted? {
          assert Follows(last, table[last.sourceId]);
        }
      }
    }
  }

  // ---------- which crashes can be repaired ----------

  /** No later install of a changed catalog gets through: the pair is torn, or the backup of the
      current catalog is unusable. */
  predicate Stuck(disk: Disk) {
    !Readable(disk) || BackupProblem(disk).Some?
  }

  predicate Acceptable(disk: Disk, c: Catalog) {
    disk.state.Some? ==>
      CheckRollback(disk.state.value.sources, c.sources) == Accepted && c.digest != disk.state.value.digest
  }

  /** On a disk that is not stuck an acceptable changed catalog installs; on one that is, no catalog
      does, and the attempt leaves everything as it is. */
  lemma StuckMeansRefused(disk: Disk, c: Catalog, written: nat)
    ensures !Stuck(disk) && Acceptable(disk, c) && written >= |Writes(disk)| ==>
              var (next, result) := Install(disk, c, written);
              result == (if disk.state.Some? then Updated else Installed)
              && next.output == Some(c) && next.state == Some(State(c.digest, c.sources))
    ensures Stuck(disk) ==>
              var (next, result) := Install(disk, c, written);
              next == disk && !result.Installed? && !result.Updated? && !result.Crashed?
  {
    if !Stuck(disk) && Acceptable(disk, c) && written >= |Writes(disk)| {
      WritesEffect(disk, c, |Writes(disk)|);
      assert Writes(disk)[..|Writes(disk)|] == Writes(disk);
    }
    hide CheckRollback;
    hide PerformAll;
    hide Writes;
  }

  /** The two crash points that cannot be repaired: between the two writes of a backup, and between
      the catalog and the rollback state. */
  predicate BadCrash(disk: Disk, written: nat) {
    (NeedsBackup(disk) && written == 1) || written == |Writes(disk)| - 1
  }

  /** A crash of an install that goes on to write leaves the disk stuck at exactly those points. */
  lemma CrashIsRepairableExactly(disk: Disk, c: Catalog, written: nat)
    requires Decision(disk, c).None? && written < |Writes(disk)|
    ensures Install(disk, c, written).1 == Crashed
    ensures Stuck(Install(disk, c, written).0) <==> BadCrash(disk, written)
  {
    WritesEffect(disk, c, written);
    hide CheckRollback;
    hide PerformAll;
  }

  /** Hence the next install of any acceptable changed catalog succeeds after a crash if and only if
      the crash was at neither point. */
  lemma NextInstallSucceedsExactly(disk: Disk, c: Catalog, written: nat, d: Catalog)
    requires Decision(disk, c).None? && written < |Writes(disk)|
    requires Acceptable(disk, d)
    ensures var torn := Install(disk, c, written).0;
            var result := Install(torn, d, |Writes(torn)|).1;
            (result.Installed? || result.Updated?) <==> !BadCrash(disk, written)
  {
    CrashIsRepairableExactly(disk, c, written);
    var torn := Install(disk, c, written).0;
    WritesEffect(disk, c, written);
    assert torn.state == disk.state;
    StuckMeansRefused(torn, d, |Writes(torn)|);
    hide Install;
    hide Stuck;
    hide CheckRollback;
    hide BadCrash;
  }

  /** Once stuck, always stuck: no series of installs changes the disk again. */
  lemma {:induction false} StuckForGood(disk: Disk, committed: seq<seq<SourceState>>, attempts: seq<Attempt>)
    requires Stuck(disk)
    ensures After(disk, committed, attempts) == (disk, committed)
    decreases |attempts|
  {
    if attempts != [] {
      StuckMeansRefused(disk, attempts[0].catalog, attempts[0].written);
      hide Install;
      hide Stuck;
      StuckForGood(disk, committed, attempts[1..]);
    }
  }

  /** After a crash between catalog and rollback state the pair is unreadable for good. */
  lemma TornInstallStaysTorn(disk: Disk, c: Catalog, committed: seq<seq<SourceState>>, attempts: seq<Attempt>)
    requires Decision(disk, c).None?
    ensures var torn := Install(disk, c, |Writes(disk)| - 1).0;
            && !Readable(torn) && torn.state == disk.state && torn.output == Some(c)
            && After(torn, committed, attempts) == (torn, committed)
  {
    WritesEffect(disk, c, |Writes(disk)| - 1);
    StuckForGood(Install(disk, c, |Writes(disk)| - 1).0, committed, attempts);
    hide CheckRollback;
    hide PerformAll;
    hide After;
  }

  /** After a crash between the two backup writes the current catalog stays readable, and every
      changed one that would be acceptable is refused for good. */
  lemma HalfBackupBlocksUpdates(disk: Disk, c: Catalog, committed: seq<seq<SourceState>>, attempts: seq<Attempt>,
                                d: Catalog, written: nat)
    requires Decision(disk, c).None? && NeedsBackup(disk)
    ensures var half := Install(disk, c, 1).0;
            && Readable(half) && half.output == disk.output && half.state == disk.state
            && After(half, committed, attempts) == (half, committed)
            && (Acceptable(disk, d) ==> Install(half, d, written).1 == BackupIncomplete)
  {
    WritesEffect(disk, c, 1);
    StuckForGood(Install(disk, c, 1).0, committed, attempts);
    hide CheckRollback;
    hide PerformAll;
    hide After;
  }

  // ---------- over whole series ----------

  /** Catalogs with the same digest are the same. */
  ghost predicate CollisionFree(catalogs: set<Catalog>) {
    forall a, b :: a in catalogs && b in catalogs && a.digest == b.digest ==> a == b
  }

  /** Every file on disk is one of the catalogs, and every backup is filed under its own digest. */
  ghost predicate Filed(disk: Disk, catalogs: set<Catalog>) {
    && (disk.output.Some? ==> disk.output.value in catalogs)
    && (forall x :: x in disk.backups && disk.backups[x].catalog.Some? ==>
          disk.backups[x].catalog.value in catalogs && disk.backups[x].catalog.value.digest == x)
    && (forall x :: x in disk.backups ==> disk.backups[x].catalog.Some? || disk.backups[x].state.None?)
    && (!Stuck(disk) ==> forall x :: x in disk.backups ==>
          disk.backups[x].catalog.Some? == disk.backups[x].state.Some?)
  }

  /** Some attempt of the series began to write and crashed at a bad point. */
  predicate CrashesBadly(disk: Disk, attempts: seq<Attempt>)
    decreases |attempts|
  {
    attempts != []
    && var a := attempts[0];
       (Decision(disk, a.catalog).None? && a.written < |Writes(disk)| && BadCrash(disk, a.written))
       || CrashesBadly(Install(disk, a.catalog, a.written).0, attempts[1..])
  }

  lemma OneInstallFiles(disk: Disk, c: Catalog, written: nat, catalogs: set<Catalog>)
    requires CollisionFree(catalogs) && Filed(disk, catalogs) && c in catalogs && !Stuck(disk)
    ensures var next := Install(disk, c, written).0;
            && Filed(next, catalogs)
            && (Stuck(next) <==> Decision(disk, c).None? && written < |Writes(disk)| && BadCrash(disk, written))
  {
    if Decision(disk, c).None? {
      assert Writes(disk)[..|Writes(disk)|] == Writes(disk);
      if written < |Writes(disk)| {
        CrashIsRepairableExactly(disk, c, written);
        WrittenFiles(disk, c, written, catalogs);
      } else {
        WrittenFiles(disk, c, |Writes(disk)|, catalogs);
        CompleteIsNotStuck(disk, c, catalogs);
      }
    }
    hide CheckRollback;
    hide PerformAll;
    hide Writes;
    hide Filed;
    hide BadCrash;
    if Decision(disk, c).None? {
      hide Stuck;
    }
  }

  lemma WrittenFiles(disk: Disk, c: Catalog, written: nat, catalogs: set<Catalog>)
    requires Filed(disk, catalogs) && c in catalogs && !Stuck(disk) && written <= |Writes(disk)|
    requires CollisionFree(catalogs)
    ensures Filed(PerformAll(disk, c, Writes(disk)[..written]), catalogs)
  {
    WritesEffect(disk, c, written);
    hide PerformAll;
  }

  /** A finished install leaves a usable pair and no half-written backup behind. */
  lemma CompleteIsNotStuck(disk: Disk, c: Catalog, catalogs: set<Catalog>)
    requires Filed(disk, catalogs) && c in catalogs && !Stuck(disk) && CollisionFree(catalogs)
    requires disk.state.Some? ==> disk.state.value.digest != c.digest
    ensures !Stuck(PerformAll(disk, c, Writes(disk)[..|Writes(disk)|]))
  {
    WritesEffect(disk, c, |Writes(disk)|);
    hide PerformAll;
  }

  /** From an empty disk, and if digests do not collide, later installs are blocked after a series of
      installs exactly when one of them crashed at one of the two bad points. */
  lemma {:induction false} BlockedExactly(disk: Disk, attempts: seq<Attempt>, catalogs: set<Catalog>)
    requires CollisionFree(catalogs) && Filed(disk, catalogs) && !Stuck(disk)
    requires forall a :: a in attempts ==> a.catalog in catalogs
    ensures Stuck(After(disk, [], attempts).0) <==> CrashesBadly(disk, attempts)
    decreases |attempts|
  {
    if attempts != [] {
      var a := attempts[0];
      var (next, result) := Install(disk, a.catalog, a.written);
      OneInstallFiles(disk, a.catalog, a.written, catalogs);
      CommittedAside(next, Commits([], a.catalog, result), [], attempts[1..]);
      hide Install;
      hide Decision;
      hide BadCrash;
      hide Filed;
      if Stuck(next) {
        StuckForGood(next, [], attempts[1..]);
      } else {
        BlockedExactly(next, attempts[1..], catalogs);
      }
      hide Stuck;
    }
  }

  /** The disk does not depend on what is recorded as committed. */
  lemma {:induction false} CommittedAside(disk: Disk, a: seq<seq<SourceState>>, b: seq<seq<SourceState>>,
                                          attempts: seq<Attempt>)
    ensures After(disk, a, attempts).0 == After(disk, b, attempts).0
    decreases |attempts|
  {
    if attempts != [] {
      var (next, result) := Install(disk, attempts[0].catalog, attempts[0].written);
      hide Install;
      var c := attempts[0].catalog;
      CommittedAside(next, Commits(a, c, result), Commits(b, c, result), attempts[1..]);
    }
  }

  lemma BlockedFromEmpty(attempts: seq<Attempt>, catalogs: set<Catalog>)
    requires CollisionFree(catalogs) && forall a :: a in attempts ==> a.catalog in catalogs
    ensures Stuck(After(EMPTY, [], attempts).0) <==> CrashesBadly(EMPTY, attempts)
  {
    BlockedExactly(EMPTY, attempts, catalogs);
  }

  // ---------- the check before the lock ----------

  datatype Read = Nothing | Pair(catalog: Catalog, state: State) | ReadRefused

  /** `_read_existing` without the lock: it looks for both files, looks for the catalog again, and reads
      catalog and state, each at a time of its own. */
  function UnlockedRead(outputLook: Disk, stateLook: Disk, outputAgain: Disk, outputRead: Disk, stateRead: Disk): Read {
    if outputLook.output.Some? != stateLook.state.Some? then ReadRefused
    else if outputAgain.output.None? then Nothing
    else if outputRead.output.None? || stateRead.state.None? then ReadRefused
    else if outputRead.output.value.digest != stateRead.state.value.digest then ReadRefused
    else Pair(outputRead.output.value, stateRead.state.value)
  }

  /** The disk after the first `k` writes of an install that another process runs under the lock. */
  function During(disk: Disk, c: Catalog, k: nat): Disk
    requires k <= |Writes(disk)|
  {
    PerformAll(disk, c, Writes(disk)[..k])
  }

  /** Beside an install that goes through, the check before the lock refuses a pair that is sound
      before and after exactly when its looks straddle the last two writes: with a catalog in place,
      when it reads the new catalog with the old state; without one, when it sees the new catalog
      before there is a state. */
  lemma UnlockedCheckRefusesExactly(disk: Disk, c: Catalog, k1: nat, k2: nat, k3: nat, k4: nat, k5: nat)
    requires Decision(disk, c).None? && k1 <= k2 <= k3 <= k4 <= k5 <= |Writes(disk)|
    ensures var last := |Writes(disk)|;
            UnlockedRead(During(disk, c, k1), During(disk, c, k2), During(disk, c, k3), During(disk, c, k4),
                         During(disk, c, k5)) == ReadRefused
            <==> if disk.state.Some? then (k4 >= last - 1 && k5 < last) || (k4 < last - 1 && k5 == last)
                 else (k1 >= last - 1 && k2 < last) || (k1 < last - 1 && k2 == last)
                      || (k1 < last - 1 && k3 >= last - 1 && k5 < last)
  {
    hide CheckRollback;
    DuringEffect(disk, c, k1);
    DuringEffect(disk, c, k2);
    DuringEffect(disk, c, k3);
    DuringEffect(disk, c, k4);
    DuringEffect(disk, c, k5);
    hide During;
    hide Writes;
    hide BackupProblem;
  }

  lemma DuringEffect(disk: Disk, c: Catalog, k: nat)
    requires Readable(disk) && k <= |Writes(disk)|
    ensures During(disk, c, k).state ==
            (if k == |Writes(disk)| then Some(State(c.digest, c.sources)) else disk.state)
    ensures During(disk, c, k).output == (if k + 1 >= |Writes(disk)| then Some(c) else disk.output)
  {
    WritesEffect(disk, c, k);
    hide PerformAll;
  }
}
