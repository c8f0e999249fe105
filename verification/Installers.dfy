/**
 Rollback-protected installation of signed documents. The data files are written one by one, each
 atomically, and the rollback state last as the commit marker; a process may crash between any two
 writes, and several processes compete for a non-blocking lock.
 */
module Installers {
  import opened Paths

  /** A verified document; `digest` is the digest of its signed payload. */
  datatype Doc = Doc(sequence: nat, digest: int, rules: seq<string>)

  /** The rollback state. */
  datatype Mark = Mark(maxSequence: nat, digest: int)

  /** How many data files precede the marker, and whether the last one is first copied aside:
      one and no for rule feeds, two and yes for intelligence envelopes. */
  datatype Layout = Layout(files: nat, keepsBackup: bool)

  const FEED := Layout(1, false)
  const INTELLIGENCE := Layout(2, true)

  datatype Disk = Disk(data: seq<Option<Doc>>, backup: Option<Doc>, mark: Option<Mark>)

  function MarkOf(d: Doc): Mark {
    Mark(d.sequence, d.digest)
  }

  /** The rollback check against the committed state. */
  predicate Accepts(mark: Option<Mark>, d: Doc) {
    mark.Some? ==>
      d.sequence > mark.value.maxSequence
      || (d.sequence == mark.value.maxSequence && d.digest == mark.value.digest)
  }

  datatype Status = Absent | Valid(rules: seq<string>) | Invalid

  /** The active document: the last data file written before the marker. */
  function Active(disk: Disk): Option<Doc> {
    if disk.data == [] then None else disk.data[|disk.data| - 1]
  }

  /** `inspect_feed`: rules are returned only for a document that the marker commits. */
  function Inspect(disk: Disk): Status {
    var active := Active(disk);
    if active.None? && disk.mark.None? then Absent
    else if active.None? || disk.mark.None? then Invalid
    else if disk.mark.value.maxSequence != active.value.sequence then Invalid
    else if disk.mark.value.digest != active.value.digest then Invalid
    else Valid(active.value.rules)
  }

  /** All data files hold the committed document. */
  predicate Current(disk: Disk) {
    && disk.mark.Some?
    && forall k :: 0 <= k < |disk.data| ==> disk.data[k].Some? && MarkOf(disk.data[k].value) == disk.mark.value
  }

  // ---------- processes ----------

  /** Where an installing process is: it holds the lock in every state but `Idle`. `Writing(d, k)`
      has passed the check and written `k` data files. */
  datatype Process = Idle | Locked(doc: Doc) | Checked(doc: Doc) | Writing(doc: Doc, written: nat)

  /** `committed` is history: every marker ever written, oldest first. */
  datatype Machine = Machine(disk: Disk, lock: Option<nat>, process: map<nat, Process>, committed: seq<Mark>)

  datatype Step =
    | Acquire(who: nat, doc: Doc)
    | Check(who: nat)
    | CopyAside(who: nat)
    | WriteData(who: nat)
    | WriteMark(who: nat)
    | Crash(who: nat)

  function At(m: Machine, who: nat): Process {
    if who in m.process then m.process[who] else Idle
  }

  predicate Enabled(layout: Layout, m: Machine, step: Step) {
    match step
    case Acquire(who, _) => At(m, who) == Idle
    case Check(who) => At(m, who).Locked?
    case CopyAside(who) => At(m, who).Checked?
    case WriteData(who) => At(m, who).Writing? && At(m, who).written < layout.files && |m.disk.data| == layout.files
    case WriteMark(who) => At(m, who).Writing? && At(m, who).written == layout.files
    case Crash(who) => At(m, who) != Idle
  }

  function Release(m: Machine, who: nat): Machine {
    m.(lock := None, process := m.process[who := Idle])
  }

  function Next(layout: Layout, m: Machine, step: Step): Machine
    requires Enabled(layout, m, step)
  {
    match step
    case Acquire(who, doc) =>
      if m.lock.Some? then m else m.(lock := Some(who), process := m.process[who := Locked(doc)])
    case Check(who) =>
      var doc := At(m, who).doc;
      if Accepts(m.disk.mark, doc) then m.(process := m.process[who := Checked(doc)]) else Release(m, who)
    case CopyAside(who) =>
      var last := Active(m.disk);
      m.(disk := if layout.keepsBackup && last.Some? then m.disk.(backup := last) else m.disk,
         process := m.process[who := Writing(At(m, who).doc, 0)])
    case WriteData(who) =>
      var p := At(m, who);
      m.(disk := m.disk.(data := m.disk.data[p.written := Some(p.doc)]),
         process := m.process[who := Writing(p.doc, p.written + 1)])
    case WriteMark(who) =>
      var mark := MarkOf(At(m, who).doc);
      Release(m.(disk := m.disk.(mark := Some(mark)), committed := m.committed + [mark]), who)
    case Crash(who) => Release(m, who)
  }

  predicate Feasible(layout: Layout, m: Machine, steps: seq<Step>)
    decreases |steps|
  {
    steps == [] || (Enabled(layout, m, steps[0]) && Feasible(layout, Next(layout, m, steps[0]), steps[1..]))
  }

  function Run(layout: Layout, m: Machine, steps: seq<Step>): Machine
    requires Feasible(layout, m, steps)
    decreases |steps|
  {
    if steps == [] then m else Run(layout, Next(layout, m, steps[0]), steps[1..])
  }

  function Fresh(layout: Layout): Machine {
    Machine(Disk(seq(layout.files, _ => None), None, None), None, map[], [])
  }

  // ---------- the invariant ----------

  /** Committed sequences never decrease, and one sequence is never committed with two digests. */
  ghost predicate Ratchet(committed: seq<Mark>) {
    forall i, j :: 0 <= i < j < |committed| ==>
      committed[i].maxSequence < committed[j].maxSequence || committed[i] == committed[j]
  }

  ghost predicate DiskInv(layout: Layout, disk: Disk, committed: seq<Mark>) {
    && |disk.data| == layout.files
    && Ratchet(committed)
    && (disk.mark == if committed == [] then None else Some(committed[|committed| - 1]))
    && (disk.mark.Some? ==> forall k :: 0 <= k < |disk.data| ==> disk.data[k].Some?)
    && (forall k :: 0 <= k < |disk.data| && disk.data[k].Some? ==> Accepts(disk.mark, disk.data[k].value))
  }

  ghost predicate Inv(layout: Layout, m: Machine) {
    && DiskInv(layout, m.disk, m.committed)
    && (forall who: nat :: At(m, who) != Idle <==> m.lock == Some(who))
    && (forall who: nat :: At(m, who).Checked? || At(m, who).Writing? ==> Accepts(m.disk.mark, At(m, who).doc))
    && (forall who: nat :: At(m, who).Writing? ==>
          At(m, who).written <= layout.files
          && forall k :: 0 <= k < At(m, who).written ==> m.disk.data[k] == Some(At(m, who).doc))
  }

  lemma RatchetGrows(committed: seq<Mark>, d: Doc)
    requires Ratchet(committed)
    requires Accepts(if committed == [] then None else Some(committed[|committed| - 1]), d)
    ensures Ratchet(committed + [MarkOf(d)])
  {
  }

  lemma NextKeepsInv(layout: Layout, m: Machine, step: Step)
    requires Inv(layout, m) && Enabled(layout, m, step)
    ensures Inv(layout, Next(layout, m, step))
  {
    var n := Next(layout, m, step);
    forall who | who != step.who ensures At(n, who) == At(m, who) {}
    if step.WriteMark? {
      RatchetGrows(m.committed, At(m, step.who).doc);
    }
    hide Ratchet;
  }

  lemma {:induction false} EveryRunKeepsInv(layout: Layout, m: Machine, steps: seq<Step>)
    requires Inv(layout, m) && Feasible(layout, m, steps)
    ensures Inv(layout, Run(layout, m, steps))
    ensures m.committed <= Run(layout, m, steps).committed
    decreases |steps|
  {
    hide Inv;
    if steps != [] {
      NextKeepsInv(layout, m, steps[0]);
      CommitsOnlyGrow(layout, m, steps[0]);
      hide Next;
      EveryRunKeepsInv(layout, Next(layout, m, steps[0]), steps[1..]);
    }
  }

  lemma CommitsOnlyGrow(layout: Layout, m: Machine, step: Step)
    requires Enabled(layout, m, step)
    ensures m.committed <= Next(layout, m, step).committed
  {
  }

  // ---------- main results ----------

  ghost predicate Reachable(layout: Layout, m: Machine) {
    exists steps :: Feasible(layout, Fresh(layout), steps) && m == Run(layout, Fresh(layout), steps)
  }

  /** Over every interleaving of installers with crashes anywhere: the committed sequence never
      decreases, and no sequence is committed with two digests. */
  lemma CommittedSequenceIsARatchet(layout: Layout, m: Machine)
    requires Reachable(layout, m)
    ensures Inv(layout, m)
    ensures forall i, j :: 0 <= i < j < |m.committed| ==>
              m.committed[i].maxSequence <= m.committed[j].maxSequence
              && (m.committed[i].maxSequence == m.committed[j].maxSequence ==>
                    m.committed[i].digest == m.committed[j].digest)
  {
    var steps :| Feasible(layout, Fresh(layout), steps) && m == Run(layout, Fresh(layout), steps);
    EveryRunKeepsInv(layout, Fresh(layout), steps);
  }

  /** On whatever disk, even one no installer left: rules are returned exactly if the document in place has
      the sequence and the digest on record, and they are its own. */
  lemma InspectionChecksBoth(disk: Disk)
    requires |disk.data| == 1
    ensures var doc, mark := disk.data[0], disk.mark;
            && (Inspect(disk).Absent? <==> doc.None? && mark.None?)
            && (Inspect(disk).Valid? <==>
                  doc.Some? && mark.Some? && doc.value.sequence == mark.value.maxSequence
                  && doc.value.digest == mark.value.digest)
            && (Inspect(disk).Valid? ==> Inspect(disk).rules == doc.value.rules)
  {
  }

  /** Rules are only ever returned for the document of the latest commit; and between a crash and
      the next install the feed is either that of the latest commit or reported invalid. */
  lemma InspectionShowsTheCommit(m: Machine)
    requires Reachable(FEED, m)
    ensures Inspect(m.disk).Valid? ==>
              m.committed != [] && Active(m.disk).Some?
              && MarkOf(Active(m.disk).value) == m.committed[|m.committed| - 1]
              && Inspect(m.disk).rules == Active(m.disk).value.rules
    ensures m.committed != [] ==> Inspect(m.disk).Valid? || Inspect(m.disk).Invalid?
    ensures Inspect(m.disk).Invalid? <==>
              Active(m.disk).Some? && Some(MarkOf(Active(m.disk).value)) != m.disk.mark
  {
    CommittedSequenceIsARatchet(FEED, m);
  }

  /** The steps of one undisturbed install. */
  function Install(layout: Layout, who: nat, d: Doc): seq<Step> {
    [Acquire(who, d), Check(who), CopyAside(who)] + seq(layout.files, _ => WriteData(who)) + [WriteMark(who)]
  }

  lemma {:induction false} WriteRest(layout: Layout, m: Machine, who: nat, k: nat)
    requires At(m, who).Writing? && At(m, who).written == layout.files - k && k <= layout.files == |m.disk.data|
    requires forall i :: 0 <= i < layout.files - k ==> m.disk.data[i] == Some(At(m, who).doc)
    ensures var steps := seq(k, _ => WriteData(who)) + [WriteMark(who)];
            && Feasible(layout, m, steps)
            && var n := Run(layout, m, steps);
               && n.disk.mark == Some(MarkOf(At(m, who).doc)) && n.disk.backup == m.disk.backup
               && n.disk.data == seq(layout.files, _ => Some(At(m, who).doc))
               && n.committed == m.committed + [MarkOf(At(m, who).doc)] && n.lock == None
    decreases k
  {
    var steps := seq(k, _ => WriteData(who)) + [WriteMark(who)];
    if k == 0 {
      assert steps == [WriteMark(who)] && steps[1..] == [];
      assert m.disk.data == seq(layout.files, _ => Some(At(m, who).doc));
    } else {
      assert steps[1..] == seq(k - 1, _ => WriteData(who)) + [WriteMark(who)];
      WriteRest(layout, Next(layout, m, WriteData(who)), who, k - 1);
    }
  }

  /** An undisturbed install of an acceptable document commits it, whatever a crash left behind. */
  lemma InstallCommits(layout: Layout, m: Machine, who: nat, d: Doc)
    requires Inv(layout, m) && m.lock.None? && Accepts(m.disk.mark, d)
    ensures Feasible(layout, m, Install(layout, who, d))
    ensures var n := Run(layout, m, Install(layout, who, d));
            && Current(n.disk) && n.disk.data == seq(layout.files, _ => Some(d)) && n.disk.mark == Some(MarkOf(d))
            && n.lock.None? && n.committed == m.committed + [MarkOf(d)]
            && (layout.keepsBackup && layout.files > 0 && m.disk.data[layout.files - 1].Some? ==>
                  n.disk.backup == m.disk.data[layout.files - 1])
  {
    var steps := Install(layout, who, d);
    var tail := seq(layout.files, _ => WriteData(who)) + [WriteMark(who)];
    assert At(m, who) == Idle;
    assert steps[0] == Acquire(who, d) && steps[1..][0] == Check(who) && steps[1..][1..][0] == CopyAside(who);
    assert steps[1..][1..][1..] == tail;
    var a := Next(layout, m, Acquire(who, d));
    var b := Next(layout, a, Check(who));
    var c := Next(layout, b, CopyAside(who));
    WriteRest(layout, c, who, layout.files);
    hide Inv;
    UnfoldThree(layout, m, steps, a, b, c);
  }

  lemma UnfoldThree(layout: Layout, m: Machine, steps: seq<Step>, a: Machine, b: Machine, c: Machine)
    requires |steps| >= 3 && Enabled(layout, m, steps[0]) && a == Next(layout, m, steps[0])
    requires Enabled(layout, a, steps[1]) && b == Next(layout, a, steps[1])
    requires Enabled(layout, b, steps[2]) && c == Next(layout, b, steps[2])
    requires Feasible(layout, c, steps[1..][1..][1..])
    ensures Feasible(layout, m, steps) && Run(layout, m, steps) == Run(layout, c, steps[1..][1..][1..])
  {
    hide Next;
    hide Enabled;
    assert Feasible(layout, b, steps[1..][1..]);
    assert Run(layout, b, steps[1..][1..]) == Run(layout, c, steps[1..][1..][1..]);
    assert Feasible(layout, a, steps[1..]);
    assert Run(layout, a, steps[1..]) == Run(layout, b, steps[1..][1..]);
  }

  /** After a crash, installing again whatever document is on disk, or the committed one, makes the
      installation valid again. */
  lemma ReinstallRepairs(m: Machine, who: nat, d: Doc)
    requires Reachable(FEED, m) && m.lock.None?
    requires Active(m.disk) == Some(d) || m.disk.mark == Some(MarkOf(d))
    ensures Feasible(FEED, m, Install(FEED, who, d))
    ensures Inspect(Run(FEED, m, Install(FEED, who, d)).disk) == Valid(d.rules)
  {
    CommittedSequenceIsARatchet(FEED, m);
    InstallCommits(FEED, m, who, d);
  }

  /** The lock is never left behind: whenever no process is installing it is free, and then any process
      that asks for it gets it, whatever was refused or crashed before. */
  lemma LockIsFree(layout: Layout, m: Machine, who: nat, d: Doc)
    requires Reachable(layout, m) && forall other: nat :: At(m, other) == Idle
    ensures m.lock.None? && Enabled(layout, m, Acquire(who, d))
    ensures var n := Next(layout, m, Acquire(who, d)); n.lock == Some(who) && At(n, who) == Locked(d)
  {
    CommittedSequenceIsARatchet(layout, m);
    HeldBySomeone(layout, m);
    hide Inv;
    hide Reachable;
  }

  lemma HeldBySomeone(layout: Layout, m: Machine)
    requires Inv(layout, m)
    ensures m.lock.None? || exists who: nat :: At(m, who) != Idle
  {
    hide DiskInv;
  }

  // ---------- what a run left behind ----------

  /** Told from the steps alone: the document of the last commit, and the last document that was
      written as active since. */
  datatype Leftover = Leftover(committed: Option<Doc>, pending: Option<Doc>)

  predicate WritesActive(layout: Layout, m: Machine, step: Step) {
    step.WriteData? && At(m, step.who).Writing? && At(m, step.who).written == layout.files - 1
  }

  function Left(layout: Layout, m: Machine, steps: seq<Step>, before: Leftover): Leftover
    requires Feasible(layout, m, steps)
    decreases |steps|
  {
    if steps == [] then before
    else Left(layout, Next(layout, m, steps[0]), steps[1..], Noted(layout, m, steps[0], before))
  }

  function Noted(layout: Layout, m: Machine, step: Step, before: Leftover): Leftover
    requires Enabled(layout, m, step)
  {
    if step.WriteMark? then Leftover(Some(At(m, step.who).doc), None)
    else if WritesActive(layout, m, step) then before.(pending := Some(At(m, step.who).doc))
    else before
  }

  predicate ActiveIs(layout: Layout, m: Machine, left: Leftover) {
    && layout.files > 0 && |m.disk.data| == layout.files
    && Active(m.disk) == (if left.pending.Some? then left.pending else left.committed)
    && m.disk.mark == (if left.committed.Some? then Some(MarkOf(left.committed.value)) else None)
  }

  lemma LeftStep(layout: Layout, m: Machine, step: Step, before: Leftover)
    requires Inv(layout, m) && Enabled(layout, m, step) && ActiveIs(layout, m, before)
    ensures ActiveIs(layout, Next(layout, m, step), Noted(layout, m, step, before))
  {
    hide Ratchet;
    hide Accepts;
  }

  /** After any run the active document is the one last written as active since the last commit, if
      there is one, and the committed one otherwise. */
  lemma {:induction false} LeftIsActive(layout: Layout, m: Machine, steps: seq<Step>, before: Leftover)
    requires Inv(layout, m) && Feasible(layout, m, steps) && ActiveIs(layout, m, before)
    ensures Inv(layout, Run(layout, m, steps))
    ensures ActiveIs(layout, Run(layout, m, steps), Left(layout, m, steps, before))
    decreases |steps|
  {
    hide Inv;
    hide ActiveIs;
    if steps != [] {
      NextKeepsInv(layout, m, steps[0]);
      LeftStep(layout, m, steps[0], before);
      var now := Noted(layout, m, steps[0], before);
      hide Next;
      hide Noted;
      LeftIsActive(layout, Next(layout, m, steps[0]), steps[1..], now);
    }
  }

  /** The last known good copy that an install keeps is the previously committed envelope exactly
      when no other envelope was written as active since that commit and left there by a crash. */
  lemma BackupIsThePriorEnvelope(steps: seq<Step>, who: nat, d: Doc)
    requires Feasible(INTELLIGENCE, Fresh(INTELLIGENCE), steps)
    requires var m := Run(INTELLIGENCE, Fresh(INTELLIGENCE), steps);
             m.lock.None? && m.disk.mark.Some? && Accepts(m.disk.mark, d)
    ensures var m := Run(INTELLIGENCE, Fresh(INTELLIGENCE), steps);
            var left := Left(INTELLIGENCE, Fresh(INTELLIGENCE), steps, Leftover(None, None));
            && Feasible(INTELLIGENCE, m, Install(INTELLIGENCE, who, d))
            && var n := Run(INTELLIGENCE, m, Install(INTELLIGENCE, who, d));
               left.committed.Some? && n.disk.mark == Some(MarkOf(d))
               && (n.disk.backup == left.committed <==> left.pending.None? || left.pending == left.committed)
  {
    var empty := Fresh(INTELLIGENCE);
    LeftIsActive(INTELLIGENCE, empty, steps, Leftover(None, None));
    InstallCommits(INTELLIGENCE, Run(INTELLIGENCE, empty, steps), who, d);
    hide Install;
    hide Left;
  }

  /** One install that crashes after writing both data files. */
  function CrashedInstall(who: nat, d: Doc): seq<Step> {
    [Acquire(who, d), Check(who), CopyAside(who), WriteData(who), WriteData(who), Crash(who)]
  }

  /** Such a crash happens: after a first install, a crashed second and a third, the copy kept aside is
      the second envelope, which was never committed, and the committed first one is gone. */
  lemma UncommittedEnvelopeIsKept(a: Doc, b: Doc, c: Doc)
    requires a.sequence < b.sequence < c.sequence
    ensures var steps := Install(INTELLIGENCE, 0, a) + CrashedInstall(0, b) + Install(INTELLIGENCE, 0, c);
            && Feasible(INTELLIGENCE, Fresh(INTELLIGENCE), steps)
            && var n := Run(INTELLIGENCE, Fresh(INTELLIGENCE), steps);
               n.disk.backup == Some(b) && n.committed == [MarkOf(a), MarkOf(c)]
               && n.disk.data == [Some(c), Some(c)]
  {
    var empty := Fresh(INTELLIGENCE);
    InstallCommits(INTELLIGENCE, empty, 0, a);
    var one := Run(INTELLIGENCE, empty, Install(INTELLIGENCE, 0, a));
    InstallKeepsInv(INTELLIGENCE, empty, 0, a);
    assert one.disk.data == [Some(a), Some(a)];
    CrashedLeaves(one, 0, b);
    var two := Run(INTELLIGENCE, one, CrashedInstall(0, b));
    EveryRunKeepsInv(INTELLIGENCE, one, CrashedInstall(0, b));
    InstallCommits(INTELLIGENCE, two, 0, c);
    hide Inv;
    hide Install;
    hide CrashedInstall;
    RunInTurn(INTELLIGENCE, empty, Install(INTELLIGENCE, 0, a), CrashedInstall(0, b));
    RunInTurn(INTELLIGENCE, empty, Install(INTELLIGENCE, 0, a) + CrashedInstall(0, b), Install(INTELLIGENCE, 0, c));
    assert [MarkOf(a)] + [MarkOf(c)] == [MarkOf(a), MarkOf(c)];
    hide Feasible;
    hide Run;
  }

  lemma InstallKeepsInv(layout: Layout, m: Machine, who: nat, d: Doc)
    requires Inv(layout, m) && m.lock.None? && Accepts(m.disk.mark, d)
    ensures Feasible(layout, m, Install(layout, who, d)) && Inv(layout, Run(layout, m, Install(layout, who, d)))
  {
    InstallCommits(layout, m, who, d);
    hide Install;
    EveryRunKeepsInv(layout, m, Install(layout, who, d));
    hide Inv;
  }

  lemma CrashedLeaves(m: Machine, who: nat, d: Doc)
    requires Inv(INTELLIGENCE, m) && m.lock.None? && Accepts(m.disk.mark, d) && Active(m.disk).Some?
    ensures Feasible(INTELLIGENCE, m, CrashedInstall(who, d))
    ensures var n := Run(INTELLIGENCE, m, CrashedInstall(who, d));
            n.disk == m.disk.(data := [Some(d), Some(d)], backup := Active(m.disk))
            && n.lock.None? && n.committed == m.committed
  {
    var steps := CrashedInstall(who, d);
    var a := Next(INTELLIGENCE, m, steps[0]);
    var b := Next(INTELLIGENCE, a, steps[1]);
    var c := Next(INTELLIGENCE, b, steps[2]);
    var e := Next(INTELLIGENCE, c, steps[3]);
    var f := Next(INTELLIGENCE, e, steps[4]);
    var g := Next(INTELLIGENCE, f, steps[5]);
    assert steps[1..][1..][1..] == [WriteData(who), WriteData(who), Crash(who)];
    assert f.disk.data == [Some(d), Some(d)];
    UnfoldThree(INTELLIGENCE, c, [WriteData(who), WriteData(who), Crash(who)], e, f, g);
    UnfoldThree(INTELLIGENCE, m, steps, a, b, c);
    assert [WriteData(who), WriteData(who), Crash(who)][1..][1..][1..] == [];
  }

  lemma {:induction false} RunInTurn(layout: Layout, m: Machine, a: seq<Step>, b: seq<Step>)
    requires Feasible(layout, m, a) && Feasible(layout, Run(layout, m, a), b)
    ensures Feasible(layout, m, a + b) && Run(layout, m, a + b) == Run(layout, Run(layout, m, a), b)
    decreases |a|
  {
    hide Next;
    hide Enabled;
    if a == [] {
      assert a + b == b;
    } else {
      assert (a + b)[0] == a[0] && (a + b)[1..] == a[1..] + b;
      RunInTurn(layout, Next(layout, m, a[0]), a[1..], b);
    }
  }

  // ---------- inspection beside a running installer ----------

  /** `inspect_feed` takes no lock: it looks for the two files, looks again that they are files, and
      reads the document and then the state, each at a time of its own. */
  function InspectOver(looks: seq<Disk>): Status
    requires |looks| == 6
  {
    if Active(looks[0]).None? && looks[1].mark.None? then Absent
    else if Active(looks[2]).None? || looks[3].mark.None? then Invalid
    else if Active(looks[4]).None? || looks[5].mark.None? then Invalid
    else if MarkOf(Active(looks[4]).value) != looks[5].mark.value then Invalid
    else Valid(Active(looks[4]).value.rules)
  }

  /** The disks after growing parts of one run. */
  ghost predicate LooksDuring(layout: Layout, m: Machine, runs: seq<seq<Step>>, looks: seq<Disk>)
    decreases |runs|
  {
    |looks| == |runs|
    && (runs != [] ==>
          && Feasible(layout, m, runs[0]) && looks[0] == Run(layout, m, runs[0]).disk
          && LooksDuring(layout, Run(layout, m, runs[0]), runs[1..], looks[1..]))
  }

  ghost function AfterLooks(layout: Layout, m: Machine, runs: seq<seq<Step>>, looks: seq<Disk>): Machine
    requires LooksDuring(layout, m, runs, looks)
    decreases |runs|
  {
    if runs == [] then m else AfterLooks(layout, Run(layout, m, runs[0]), runs[1..], looks[1..])
  }

  lemma {:induction false} LooksAreReached(layout: Layout, m: Machine, runs: seq<seq<Step>>, looks: seq<Disk>)
    requires Inv(layout, m) && LooksDuring(layout, m, runs, looks)
    ensures Inv(layout, AfterLooks(layout, m, runs, looks))
    ensures m.committed <= AfterLooks(layout, m, runs, looks).committed
    ensures runs != [] ==> AfterLooks(layout, m, runs, looks).disk == looks[|looks| - 1]
    decreases |runs|
  {
    hide Inv;
    hide Feasible;
    hide Run;
    if runs != [] {
      EveryRunKeepsInv(layout, m, runs[0]);
      LooksAreReached(layout, Run(layout, m, runs[0]), runs[1..], looks[1..]);
      if |runs| == 1 {
        assert looks[1..] == [] && runs[1..] == [];
      }
    }
  }

  /** Beside any number of running installers, rules are returned only for a document that is the
      latest commit when the state is read; and a feed is called absent only if nothing was committed
      when the inspection began. */
  lemma InspectionBesideInstallers(m: Machine, runs: seq<seq<Step>>, looks: seq<Disk>)
    requires Reachable(FEED, m) && |runs| == 6 && LooksDuring(FEED, m, runs, looks)
    ensures var n := AfterLooks(FEED, m, runs, looks);
            InspectOver(looks).Valid? ==>
              n.committed != [] && Active(looks[4]).Some?
              && MarkOf(Active(looks[4]).value) == n.committed[|n.committed| - 1]
              && InspectOver(looks).rules == Active(looks[4]).value.rules
    ensures InspectOver(looks).Absent? ==> m.committed == []
  {
    CommittedSequenceIsARatchet(FEED, m);
    LooksAreReached(FEED, m, runs, looks);
    SecondLook(FEED, m, runs, looks);
    hide Reachable;
    hide AfterLooks;
    hide LooksDuring;
  }

  /** What was committed when an inspection began is still marked at its second look. */
  lemma SecondLook(layout: Layout, m: Machine, runs: seq<seq<Step>>, looks: seq<Disk>)
    requires Inv(layout, m) && |runs| >= 2 && LooksDuring(layout, m, runs, looks)
    ensures m.committed != [] ==> looks[1].mark.Some?
  {
    var a := Run(layout, m, runs[0]);
    EveryRunKeepsInv(layout, m, runs[0]);
    assert runs[1..][0] == runs[1] && looks[1..][0] == looks[1];
    EveryRunKeepsInv(layout, a, runs[1]);
    hide Feasible;
    hide Run;
    hide Ratchet;
    hide Accepts;
  }

  /** The document in place according to what a run left behind. */
  function InPlace(left: Leftover): Option<Doc> {
    if left.pending.Some? then left.pending else left.committed
  }

  /** What the steps have left behind at each look. */
  ghost function LeftsAt(layout: Layout, m: Machine, runs: seq<seq<Step>>, looks: seq<Disk>,
                         before: Leftover): (r: seq<Leftover>)
    requires LooksDuring(layout, m, runs, looks)
    ensures |r| == |runs|
    decreases |runs|
  {
    if runs == [] then []
    else
      var left := Left(layout, m, runs[0], before);
      [left] + LeftsAt(layout, Run(layout, m, runs[0]), runs[1..], looks[1..], left)
  }

  lemma {:induction false} LooksShowLefts(layout: Layout, m: Machine, runs: seq<seq<Step>>, looks: seq<Disk>,
                                          before: Leftover)
    requires Inv(layout, m) && ActiveIs(layout, m, before) && LooksDuring(layout, m, runs, looks)
    ensures var lefts := LeftsAt(layout, m, runs, looks, before);
            forall i :: 0 <= i < |runs| ==> Shows(looks[i], lefts[i])
    decreases |runs|
  {
    hide Inv;
    hide Feasible;
    hide Run;
    hide Left;
    if runs != [] {
      var n, left := Run(layout, m, runs[0]), Left(layout, m, runs[0], before);
      LeftIsActive(layout, m, runs[0], before);
      LooksShowLefts(layout, n, runs[1..], looks[1..], left);
      var lefts := LeftsAt(layout, m, runs, looks, before);
      forall i | 0 <= i < |runs| ensures Shows(looks[i], lefts[i]) {
        if i > 0 {
          assert looks[i] == looks[1..][i - 1] && lefts[i] == LeftsAt(layout, n, runs[1..], looks[1..], left)[i - 1];
        }
      }
    }
  }

  predicate Shows(disk: Disk, left: Leftover) {
    && Active(disk) == InPlace(left)
    && disk.mark == (if left.committed.Some? then Some(MarkOf(left.committed.value)) else None)
  }

  /** What an inspection reports beside any number of running installers, exactly, in terms of what
      their steps had left behind at its six looks: it returns rules if and only if the document in
      place at the read of the document has the mark of the one committed at the read of the state,
      everything it looks for being there. */
  lemma InspectionIsExact(runs: seq<seq<Step>>, looks: seq<Disk>)
    requires |runs| == 6 && LooksDuring(FEED, Fresh(FEED), runs, looks)
    ensures var l := LeftsAt(FEED, Fresh(FEED), runs, looks, Leftover(None, None));
            var absent := InPlace(l[0]).None? && l[1].committed.None?;
            && (InspectOver(looks).Absent? <==> absent)
            && (InspectOver(looks).Valid? <==>
                  !absent && InPlace(l[2]).Some? && l[3].committed.Some? && InPlace(l[4]).Some?
                  && l[5].committed.Some? && MarkOf(InPlace(l[4]).value) == MarkOf(l[5].committed.value))
            && (InspectOver(looks).Valid? ==> InspectOver(looks).rules == InPlace(l[4]).value.rules)
  {
    LooksShowLefts(FEED, Fresh(FEED), runs, looks, Leftover(None, None));
    hide LeftsAt;
    hide LooksDuring;
    hide Inv;
  }

  /** Once committed, something stays committed. */
  lemma {:induction false} LeftKeeps(layout: Layout, m: Machine, steps: seq<Step>, before: Leftover)
    requires Feasible(layout, m, steps)
    ensures before.committed.Some? ==> Left(layout, m, steps, before).committed.Some?
    ensures (forall step :: step in steps ==> !step.WriteData? && !step.WriteMark?) ==>
              Left(layout, m, steps, before) == before
    decreases |steps|
  {
    hide Next;
    if steps != [] {
      LeftKeeps(layout, Next(layout, m, steps[0]), steps[1..], Noted(layout, m, steps[0], before));
    }
  }

  lemma {:induction false} LeftsGrow(layout: Layout, m: Machine, runs: seq<seq<Step>>, looks: seq<Disk>,
                                     before: Leftover, i: nat, j: nat)
    requires LooksDuring(layout, m, runs, looks) && i <= j < |runs|
    ensures var l := LeftsAt(layout, m, runs, looks, before);
            && (before.committed.Some? ==> l[j].committed.Some?)
            && (l[i].committed.Some? ==> l[j].committed.Some?)
            && (j == i + 1 && (forall step :: step in runs[j] ==> !step.WriteData? && !step.WriteMark?) ==>
                  l[j] == l[i])
    decreases |runs|
  {
    hide Feasible;
    hide Run;
    var n, left := Run(layout, m, runs[0]), Left(layout, m, runs[0], before);
    LeftKeeps(layout, m, runs[0], before);
    var l, rest := LeftsAt(layout, m, runs, looks, before), LeftsAt(layout, n, runs[1..], looks[1..], left);
    assert l == [left] + rest;
    hide Left;
    if i > 0 {
      LeftsGrow(layout, n, runs[1..], looks[1..], left, i - 1, j - 1);
    } else if j > 0 {
      LeftsGrow(layout, n, runs[1..], looks[1..], left, 0, j - 1);
      if j == 1 {
        SecondLeft(layout, n, runs[1..], looks[1..], left);
      }
    }
  }

  lemma SecondLeft(layout: Layout, m: Machine, runs: seq<seq<Step>>, looks: seq<Disk>, before: Leftover)
    requires LooksDuring(layout, m, runs, looks) && runs != []
    ensures (forall step :: step in runs[0] ==> !step.WriteData? && !step.WriteMark?) ==>
              LeftsAt(layout, m, runs, looks, before)[0] == before
  {
    LeftKeeps(layout, m, runs[0], before);
    hide Left;
  }

  /** If a feed was committed when the inspection began, it reports rules exactly when the document it
      reads has the mark of the one committed when it reads the state. In particular it does whenever
      no installer writes between the two reads and nothing uncommitted is in place. */
  lemma CommittedFeedIsReported(runs: seq<seq<Step>>, looks: seq<Disk>)
    requires |runs| == 6 && LooksDuring(FEED, Fresh(FEED), runs, looks)
    requires LeftsAt(FEED, Fresh(FEED), runs, looks, Leftover(None, None))[1].committed.Some?
    ensures var l := LeftsAt(FEED, Fresh(FEED), runs, looks, Leftover(None, None));
            && InPlace(l[4]).Some? && l[5].committed.Some?
            && (InspectOver(looks).Valid? <==> MarkOf(InPlace(l[4]).value) == MarkOf(l[5].committed.value))
            && ((forall step :: step in runs[5] ==> !step.WriteData? && !step.WriteMark?) && l[4].pending.None?
                ==> InspectOver(looks) == Valid(l[4].committed.value.rules))
  {
    var none := Leftover(None, None);
    InspectionIsExact(runs, looks);
    forall j | 1 <= j < 6
      ensures LeftsAt(FEED, Fresh(FEED), runs, looks, none)[j].committed.Some?
    {
      LeftsGrow(FEED, Fresh(FEED), runs, looks, none, 1, j);
    }
    LeftsGrow(FEED, Fresh(FEED), runs, looks, none, 4, 5);
    hide LeftsAt;
    hide LooksDuring;
    hide InspectOver;
  }

  /** An inspection may find a feed invalid although it is valid before and after: an install that
      runs between its two reads is enough. */
  lemma InspectionMayMissACommit(a: Doc, b: Doc)
    requires a.sequence < b.sequence
    ensures Feasible(FEED, Fresh(FEED), Install(FEED, 0, a))
    ensures var m := Run(FEED, Fresh(FEED), Install(FEED, 0, a));
            && Feasible(FEED, m, Install(FEED, 0, b))
            && var n := Run(FEED, m, Install(FEED, 0, b));
               && Inspect(m.disk) == Valid(a.rules) && Inspect(n.disk) == Valid(b.rules)
               && InspectOver([m.disk, m.disk, m.disk, m.disk, m.disk, n.disk]) == Invalid
  {
    InstallCommits(FEED, Fresh(FEED), 0, a);
    InstallKeepsInv(FEED, Fresh(FEED), 0, a);
    InstallCommits(FEED, Run(FEED, Fresh(FEED), Install(FEED, 0, a)), 0, b);
    hide Install;
    hide Run;
    hide Feasible;
  }

  // ---------- the store object ----------

  datatype Outcome = Installed | Unchanged | Busy | Rollback | Reuse | Crashed

  /** The files of one feed installation; `committed` is history. */
  class FeedStore {
    var document: Option<Doc>
    var mark: Option<Mark>
    ghost var committed: seq<Mark>

    ghost function View(): Disk
      reads this
    {
      Disk([document], None, mark)
    }

    ghost predicate Sound()
      reads this
    {
      DiskInv(FEED, View(), committed)
    }

    constructor ()
      ensures Sound() && document.None? && mark.None? && committed == []
    {
      document, mark, committed := None, None, [];
    }

    /** One `install_feed`: `free` is whether the lock could be taken, `crashAfter` how many writes
        happen before a crash, two meaning none. */
    method InstallFeed(d: Doc, free: bool, crashAfter: nat) returns (r: Outcome)
      requires Sound()
      modifies this
      ensures Sound() && old(committed) <= committed
      ensures r.Busy? <==> !free
      ensures r.Rollback? <==> free && old(mark).Some? && d.sequence < old(mark).value.maxSequence
      ensures r.Reuse? <==> free && old(mark).Some? && d.sequence == old(mark).value.maxSequence
                            && d.digest != old(mark).value.digest
      ensures r.Crashed? <==> free && !r.Rollback? && !r.Reuse? && crashAfter < 2
      ensures r.Busy? || r.Rollback? || r.Reuse? || (r.Crashed? && crashAfter == 0) ==> View() == old(View())
      ensures r.Crashed? && crashAfter == 1 ==> document == Some(d) && mark == old(mark)
      ensures r.Installed? || r.Unchanged? ==>
                document == Some(d) && mark == Some(Mark(d.sequence, d.digest))
                && committed == old(committed) + [Mark(d.sequence, d.digest)]
                && Inspect(View()) == Valid(d.rules)
      ensures r.Unchanged? <==> free && crashAfter >= 2 && old(mark) == Some(Mark(d.sequence, d.digest))
    {
      if !free {
        return Busy;
      }
      r := Installed;
      if mark.Some? {
        if d.sequence < mark.value.maxSequence { return Rollback; }
        if d.sequence == mark.value.maxSequence {
          if d.digest != mark.value.digest { return Reuse; }
          r := Unchanged;
        }
      }
      if crashAfter == 0 { return Crashed; }
      document := Some(d);
      if crashAfter == 1 { return Crashed; }
      RatchetGrows(committed, d);
      mark := Some(MarkOf(d));
      committed := committed + [MarkOf(d)];
    }
  }
}
