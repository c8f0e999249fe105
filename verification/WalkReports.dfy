/**
 Which files a walk reports: those that the directories on the way lead to, and no others. It is said
 with the file system alone, without the walk's stack, its visited set or its classification.
 */
module WalkReports {
  import opened Paths
  import opened DirectoryWalk

  // ---------- what there is to report ----------

  /** The path is an excluded one or lies below one. */
  predicate Hidden(cfg: Config, path: Key) {
    exists x :: x in cfg.excluded && x <= path
  }

  predicate IsDirectory(fs: FileSystem, path: Key) {
    fs.lstat(path).Some? && fs.lstat(path).value.kind == DirectoryKind
  }

  /** A directory the walk goes into: not hidden, and on the filesystem of the root unless the walk may
      leave it. A device number of zero is no device. */
  predicate Enterable(fs: FileSystem, cfg: Config, rootDevice: nat, path: Key) {
    && !Hidden(cfg, path) && IsDirectory(fs, path)
    && (cfg.crossFilesystems || rootDevice == 0 || fs.lstat(path).value.device in {0, rootDevice})
  }

  /** A file that is reported where it is met. */
  predicate Reportable(fs: FileSystem, cfg: Config, path: Key) {
    !Hidden(cfg, path) && fs.lstat(path).Some? && fs.lstat(path).value.kind == RegularKind
  }

  predicate ListedIn(fs: FileSystem, dir: Key, name: string) {
    fs.list(dir).Some? && name in fs.list(dir).value
  }

  /** Every directory from the root to the path is entered and lists the next name. */
  predicate Leads(fs: FileSystem, cfg: Config, rootDevice: nat, root: Key, path: Key) {
    && root < path
    && (forall i :: |root| < i < |path| ==> Enterable(fs, cfg, rootDevice, path[..i]))
    && (forall i :: |root| <= i < |path| ==> ListedIn(fs, path[..i], path[i]))
  }

  /** The walk of the root is to report this file. */
  predicate IsUnder(fs: FileSystem, cfg: Config, root: Key, path: Key) {
    && !Hidden(cfg, root) && fs.lstat(root).Some?
    && (if IsDirectory(fs, root) then
          Leads(fs, cfg, fs.lstat(root).value.device, root, path) && Reportable(fs, cfg, path)
        else path == root && Reportable(fs, cfg, root))
  }

  /** No directory has two paths. */
  ghost predicate OnePathEach(fs: FileSystem) {
    forall a, b :: IsDirectory(fs, a) && IsDirectory(fs, b) && IdentityOf(fs, a) == IdentityOf(fs, b) ==> a == b
  }

  function IdentityOf(fs: FileSystem, path: Key): Identity
    requires IsDirectory(fs, path)
  {
    (fs.lstat(path).value.device, fs.lstat(path).value.inode)
  }

  lemma ClassOf(fs: FileSystem, cfg: Config, rootDevice: nat, path: Key)
    ensures cfg.Excludes(path) <==> Hidden(cfg, path)
    ensures Classify(fs, cfg, rootDevice, path) == File <==> Reportable(fs, cfg, path)
    ensures Classify(fs, cfg, rootDevice, path) == Child <==> Enterable(fs, cfg, rootDevice, path)
  {
    forall x ensures Within(path, x) <==> x <= path {}
  }

  // ---------- one directory ----------

  predicate Entry(dir: Key, names: seq<string>, p: Key) {
    |p| == |dir| + 1 && dir < p && p[|dir|] in names
  }

  lemma OneMoreName(dir: Key, front: seq<string>, name: string, p: Key)
    ensures Entry(dir, front + [name], p) <==> Entry(dir, front, p) || p == dir + [name]
  {
    if Entry(dir, front + [name], p) { assert p == p[..|dir|] + [p[|dir|]]; }
  }

  /** The files and directories among the listed names, and nothing else, are passed on. */
  ghost predicate Collects(fs: FileSystem, cfg: Config, rootDevice: nat, dir: Key, names: seq<string>,
                           before: seq<Key>, files: seq<Key>, children: seq<Key>)
  {
    && before <= files
    && (forall p :: p in files[|before|..] <==> Entry(dir, names, p) && Reportable(fs, cfg, p))
    && (forall p :: p in children <==> Entry(dir, names, p) && Enterable(fs, cfg, rootDevice, p))
  }

  lemma {:induction false} EntriesCollect(fs: FileSystem, cfg: Config, rootDevice: nat, dir: Key,
                                          names: seq<string>, r: Result)
    ensures var e := Entries(fs, cfg, rootDevice, dir, names, r);
            Collects(fs, cfg, rootDevice, dir, names, r.files, e.0.files, e.1)
  {
    if names == [] {
      assert r.files[|r.files|..] == [];
    } else {
      var front, name := names[..|names| - 1], names[|names| - 1];
      assert names == front + [name];
      hide *;
      EntriesCollect(fs, cfg, rootDevice, dir, front, r);
      CollectedNext(fs, cfg, rootDevice, dir, front, name, r);
      var e := Entries(fs, cfg, rootDevice, dir, front, r);
      OneMoreEntry(fs, cfg, rootDevice, dir, front, name, r.files, e.0.files, e.1);
    }
  }

  lemma CollectedNext(fs: FileSystem, cfg: Config, rootDevice: nat, dir: Key, front: seq<string>, name: string, r: Result)
    ensures var e, n := Entries(fs, cfg, rootDevice, dir, front, r), Entries(fs, cfg, rootDevice, dir, front + [name], r);
            var path := dir + [name];
            && n.0.files == (if Reportable(fs, cfg, path) then e.0.files + [path] else e.0.files)
            && n.1 == (if Enterable(fs, cfg, rootDevice, path) then e.1 + [path] else e.1)
  {
    ClassOf(fs, cfg, rootDevice, dir + [name]);
    assert (front + [name])[..|front|] == front;
    hide Classify;
    hide Reportable;
    hide Enterable;
  }

  lemma OneMoreEntry(fs: FileSystem, cfg: Config, rootDevice: nat, dir: Key, front: seq<string>, name: string,
                     before: seq<Key>, files: seq<Key>, children: seq<Key>)
    requires Collects(fs, cfg, rootDevice, dir, front, before, files, children)
    ensures var path := dir + [name];
            Collects(fs, cfg, rootDevice, dir, front + [name], before,
                     if Reportable(fs, cfg, path) then files + [path] else files,
                     if Enterable(fs, cfg, rootDevice, path) then children + [path] else children)
  {
    var path := dir + [name];
    forall p ensures Entry(dir, front + [name], p) <==> Entry(dir, front, p) || p == path {
      OneMoreName(dir, front, name, p);
    }
    assert before <= files + [path] && (files + [path])[|before|..] == files[|before|..] + [path];
    hide Reportable;
    hide Enterable;
    hide Entry;
  }

  // ---------- a visit ----------

  /** A directory has been dealt with: its files are reported, and its directories have been visited. */
  ghost predicate Done(fs: FileSystem, cfg: Config, rootDevice: nat, dir: Key, r: Walked) {
    forall p :: |p| == |dir| + 1 && dir < p && ListedIn(fs, dir, p[|dir|]) ==>
      && (Reportable(fs, cfg, p) ==> p in r.result.files)
      && (Enterable(fs, cfg, rootDevice, p) ==> IdentityOf(fs, p) in r.visited)
  }

  lemma StaysDone(fs: FileSystem, cfg: Config, rootDevice: nat, dir: Key, r: Walked, more: Walked)
    requires Done(fs, cfg, rootDevice, dir, r) && r.visited <= more.visited && r.result.files <= more.result.files
    ensures Done(fs, cfg, rootDevice, dir, more)
  {
    hide Reportable;
    hide ListedIn;
  }

  predicate AllDirectories(fs: FileSystem, dirs: seq<Key>) {
    forall d :: d in dirs ==> IsDirectory(fs, d)
  }

  /** What opening one directory adds. */
  lemma OpenedAdds(fs: FileSystem, cfg: Config, rootDevice: nat, w: Walked, dir: Key)
    requires IsDirectory(fs, dir) && fs.lstat(dir).value.inode != 0
    ensures var o := Opened(fs, cfg, rootDevice, w, dir);
            && o.0.visited == w.visited + {IdentityOf(fs, dir)} && w.result.files <= o.0.result.files
            && AllDirectories(fs, o.1)
            && (IdentityOf(fs, dir) in w.visited ==> o.1 == [] && o.0.result.files == w.result.files)
            && (IdentityOf(fs, dir) !in w.visited ==>
                  if fs.list(dir).None? then o.1 == [] && o.0.result.files == w.result.files
                  else Collects(fs, cfg, rootDevice, dir, fs.list(dir).value, w.result.files, o.0.result.files, o.1))
  {
    if fs.list(dir).Some? {
      EntriesCollect(fs, cfg, rootDevice, dir, fs.list(dir).value, w.result);
    }
    hide Entries;
    hide Reportable;
    hide Hidden;
  }

  /** Whatever a visit reports, the directories it starts from lead to it. */
  ghost predicate LedTo(fs: FileSystem, cfg: Config, rootDevice: nat, dirs: seq<Key>, path: Key) {
    Reportable(fs, cfg, path) && exists d :: d in dirs && Leads(fs, cfg, rootDevice, d, path)
  }

  ghost predicate Adds(fs: FileSystem, cfg: Config, rootDevice: nat, dirs: seq<Key>, before: seq<Key>, after: seq<Key>)
  {
    before <= after && forall p :: p in after[|before|..] ==> LedTo(fs, cfg, rootDevice, dirs, p)
  }

  lemma AddsInTurn(fs: FileSystem, cfg: Config, rootDevice: nat, first: seq<Key>, second: seq<Key>, dirs: seq<Key>,
                   a: seq<Key>, b: seq<Key>, c: seq<Key>)
    requires Adds(fs, cfg, rootDevice, first, a, b) && Adds(fs, cfg, rootDevice, second, b, c)
    requires forall p :: LedTo(fs, cfg, rootDevice, first, p) ==> LedTo(fs, cfg, rootDevice, dirs, p)
    requires forall p :: LedTo(fs, cfg, rootDevice, second, p) ==> LedTo(fs, cfg, rootDevice, dirs, p)
    ensures Adds(fs, cfg, rootDevice, dirs, a, c)
  {
    hide LedTo;
    assert c[|a|..] == b[|a|..] + c[|b|..];
  }

  /** A child that is entered leads on to what its parent leads to through it. */
  lemma LeadsOn(fs: FileSystem, cfg: Config, rootDevice: nat, dir: Key, child: Key, path: Key)
    requires |child| == |dir| + 1 && dir < child && ListedIn(fs, dir, child[|dir|])
    requires Enterable(fs, cfg, rootDevice, child) && Leads(fs, cfg, rootDevice, child, path)
    ensures Leads(fs, cfg, rootDevice, dir, path)
  {
    hide Enterable;
    hide ListedIn;
    assert path[..|dir|] == dir && path[..|child|] == child;
    forall i | |dir| < i < |path| ensures Enterable(fs, cfg, rootDevice, path[..i]) {
      assert i == |child| ==> path[..i] == child;
    }
  }

  lemma DirectlyLedTo(fs: FileSystem, cfg: Config, rootDevice: nat, dir: Key, path: Key)
    requires |path| == |dir| + 1 && dir < path && ListedIn(fs, dir, path[|dir|])
    ensures Leads(fs, cfg, rootDevice, dir, path)
  {
    assert path[..|dir|] == dir;
    hide Enterable;
    hide ListedIn;
  }

  lemma {:induction false} VisitReportsOnly(fs: FileSystem, cfg: Config, rootDevice: nat, universe: set<Identity>,
                                            dirs: seq<Key>, w: Walked)
    requires Finite(fs, universe) && AllDirectories(fs, dirs)
    ensures Adds(fs, cfg, rootDevice, dirs, w.result.files,
                 Visit(fs, cfg, rootDevice, universe, dirs, w).result.files)
    decreases |universe - w.visited|, |dirs|
  {
    hide LedTo;
    if dirs == [] {
      assert w.result.files[|w.result.files|..] == [];
    } else {
      var dir := dirs[0];
      OpenedProgress(fs, cfg, rootDevice, universe, w, dir);
      HasInode(fs, universe, dir);
      OpenedAdds(fs, cfg, rootDevice, w, dir);
      OpenedReports(fs, cfg, rootDevice, w, dir);
      hide Opened;
      var o := Opened(fs, cfg, rootDevice, w, dir);
      var inner := Visit(fs, cfg, rootDevice, universe, o.1, o.0);
      NoMore(universe, o.0.visited, inner.visited);
      VisitReportsOnly(fs, cfg, rootDevice, universe, o.1, o.0);
      VisitReportsOnly(fs, cfg, rootDevice, universe, dirs[1..], inner);
      var last := Visit(fs, cfg, rootDevice, universe, dirs[1..], inner);
      assert last == Visit(fs, cfg, rootDevice, universe, dirs, w);
      hide *;
      AddsInTurn(fs, cfg, rootDevice, [dir], o.1, [dir], w.result.files, o.0.result.files, inner.result.files);
      LedToOfOne(fs, cfg, rootDevice, dirs);
      AddsInTurn(fs, cfg, rootDevice, [dir], dirs[1..], dirs, w.result.files, inner.result.files, last.result.files);
    }
  }

  lemma LedToOfOne(fs: FileSystem, cfg: Config, rootDevice: nat, dirs: seq<Key>)
    requires dirs != []
    ensures forall p :: LedTo(fs, cfg, rootDevice, [dirs[0]], p) ==> LedTo(fs, cfg, rootDevice, dirs, p)
    ensures forall p :: LedTo(fs, cfg, rootDevice, dirs[1..], p) ==> LedTo(fs, cfg, rootDevice, dirs, p)
  {
    hide Leads;
    hide Reportable;
  }

  lemma HasInode(fs: FileSystem, universe: set<Identity>, dir: Key)
    requires Finite(fs, universe) && IsDirectory(fs, dir)
    ensures fs.lstat(dir).value.inode != 0
  {
  }

  lemma OpenedReports(fs: FileSystem, cfg: Config, rootDevice: nat, w: Walked, dir: Key)
    requires IsDirectory(fs, dir) && fs.lstat(dir).value.inode != 0
    ensures var o := Opened(fs, cfg, rootDevice, w, dir);
            && Adds(fs, cfg, rootDevice, [dir], w.result.files, o.0.result.files)
            && forall p :: LedTo(fs, cfg, rootDevice, o.1, p) ==> LedTo(fs, cfg, rootDevice, [dir], p)
  {
    OpenedAdds(fs, cfg, rootDevice, w, dir);
    hide Opened;
    hide Enterable;
    hide Reportable;
    var o := Opened(fs, cfg, rootDevice, w, dir);
    var files := o.0.result.files[|w.result.files|..];
    forall p | p in files ensures LedTo(fs, cfg, rootDevice, [dir], p) {
      DirectlyLedTo(fs, cfg, rootDevice, dir, p);
      assert dir in [dir];
    }
    forall p | LedTo(fs, cfg, rootDevice, o.1, p) ensures LedTo(fs, cfg, rootDevice, [dir], p) {
      var child :| child in o.1 && Leads(fs, cfg, rootDevice, child, p);
      LeadsOn(fs, cfg, rootDevice, dir, child, p);
      assert dir in [dir];
    }
  }

  /** Every directory visited in between is done, and every one started from has been visited. */
  lemma {:induction false} VisitCloses(fs: FileSystem, cfg: Config, rootDevice: nat, universe: set<Identity>,
                                       dirs: seq<Key>, w: Walked)
    requires Finite(fs, universe) && AllDirectories(fs, dirs) && OnePathEach(fs)
    ensures var r := Visit(fs, cfg, rootDevice, universe, dirs, w);
            && (forall d :: d in dirs ==> IdentityOf(fs, d) in r.visited)
            && (forall d :: IsDirectory(fs, d) && IdentityOf(fs, d) in r.visited && IdentityOf(fs, d) !in w.visited ==>
                  Done(fs, cfg, rootDevice, d, r))
    decreases |universe - w.visited|, |dirs|
  {
    hide Done;
    if dirs != [] {
      var dir := dirs[0];
      OpenedProgress(fs, cfg, rootDevice, universe, w, dir);
      HasInode(fs, universe, dir);
      OpenedAdds(fs, cfg, rootDevice, w, dir);
      hide Opened;
      var o := Opened(fs, cfg, rootDevice, w, dir);
      var inner := Visit(fs, cfg, rootDevice, universe, o.1, o.0);
      NoMore(universe, o.0.visited, inner.visited);
      VisitCloses(fs, cfg, rootDevice, universe, o.1, o.0);
      VisitCloses(fs, cfg, rootDevice, universe, dirs[1..], inner);
      VisitReportsOnly(fs, cfg, rootDevice, universe, o.1, o.0);
      VisitReportsOnly(fs, cfg, rootDevice, universe, dirs[1..], inner);
      var last := Visit(fs, cfg, rootDevice, universe, dirs[1..], inner);
      assert last == Visit(fs, cfg, rootDevice, universe, dirs, w);
      hide Visit;
      hide Finite;
      hide LedTo;
      hide Collects;
      forall d | IsDirectory(fs, d) && IdentityOf(fs, d) in last.visited && IdentityOf(fs, d) !in w.visited
        ensures Done(fs, cfg, rootDevice, d, last)
      {
        if IdentityOf(fs, d) in o.0.visited {
          assert d == dir;
          OpenedIsDone(fs, cfg, rootDevice, w, dir, o, inner);
          StaysDone(fs, cfg, rootDevice, dir, inner, last);
        } else if IdentityOf(fs, d) in inner.visited {
          StaysDone(fs, cfg, rootDevice, d, inner, last);
        }
      }
    }
  }

  lemma OpenedIsDone(fs: FileSystem, cfg: Config, rootDevice: nat, w: Walked, dir: Key, o: (Walked, seq<Key>),
                     inner: Walked)
    requires IsDirectory(fs, dir) && o.0.result.files <= inner.result.files
    requires fs.list(dir).Some? ==>
               Collects(fs, cfg, rootDevice, dir, fs.list(dir).value, w.result.files, o.0.result.files, o.1)
    requires forall c :: c in o.1 ==> IsDirectory(fs, c) && IdentityOf(fs, c) in inner.visited
    ensures Done(fs, cfg, rootDevice, dir, inner)
  {
    hide Reportable;
    forall p | |p| == |dir| + 1 && dir < p && ListedIn(fs, dir, p[|dir|])
      ensures Reportable(fs, cfg, p) ==> p in inner.result.files
      ensures Enterable(fs, cfg, rootDevice, p) ==> IdentityOf(fs, p) in inner.visited
    {
      if Reportable(fs, cfg, p) {
        assert p in o.0.result.files[|w.result.files|..];
      }
      if Enterable(fs, cfg, rootDevice, p) {
        assert p in o.1;
      }
    }
  }

  // ---------- main results ----------

  /** Every directory visited is done. */
  ghost predicate AllDone(fs: FileSystem, cfg: Config, rootDevice: nat, r: Walked) {
    forall d :: IsDirectory(fs, d) && IdentityOf(fs, d) in r.visited ==> Done(fs, cfg, rootDevice, d, r)
  }

  lemma VisitedIsDone(fs: FileSystem, cfg: Config, rootDevice: nat, r: Walked, dir: Key)
    requires AllDone(fs, cfg, rootDevice, r) && IsDirectory(fs, dir) && IdentityOf(fs, dir) in r.visited
    ensures Done(fs, cfg, rootDevice, dir, r)
  {
    hide Done;
    hide IsDirectory;
  }

  /** Down a path that leads somewhere, every directory has been visited. */
  lemma {:induction false} VisitedAllTheWay(fs: FileSystem, cfg: Config, rootDevice: nat, root: Key, path: Key,
                                            i: nat, r: Walked)
    requires IsDirectory(fs, root) && IdentityOf(fs, root) in r.visited && Leads(fs, cfg, rootDevice, root, path)
    requires AllDone(fs, cfg, rootDevice, r)
    requires |root| <= i < |path|
    ensures IsDirectory(fs, path[..i]) && IdentityOf(fs, path[..i]) in r.visited
    decreases i
  {
    hide *;
    StepDown(fs, cfg, rootDevice, root, path, i);
    if i == |root| {
      assert path[..i] == root;
    } else {
      VisitedAllTheWay(fs, cfg, rootDevice, root, path, i - 1, r);
      VisitedIsDone(fs, cfg, rootDevice, r, path[..i - 1]);
      DoneReports(fs, cfg, rootDevice, path[..i - 1], path[..i], r);
    }
  }

  lemma StepDown(fs: FileSystem, cfg: Config, rootDevice: nat, root: Key, path: Key, i: nat)
    requires Leads(fs, cfg, rootDevice, root, path) && |root| <= i < |path|
    ensures path[..|root|] == root
    ensures i > |root| ==> Enterable(fs, cfg, rootDevice, path[..i]) && path[..i - 1] < path[..i]
                           && path[..i][i - 1] == path[i - 1] && ListedIn(fs, path[..i - 1], path[i - 1])
  {
    hide Enterable;
    hide ListedIn;
  }

  lemma LedToIsReported(fs: FileSystem, cfg: Config, rootDevice: nat, root: Key, path: Key, r: Walked)
    requires IsDirectory(fs, root) && IdentityOf(fs, root) in r.visited && Leads(fs, cfg, rootDevice, root, path)
    requires AllDone(fs, cfg, rootDevice, r)
    requires Reportable(fs, cfg, path)
    ensures path in r.result.files
  {
    hide *;
    LastStep(fs, cfg, rootDevice, root, path);
    var dir := path[..|path| - 1];
    VisitedAllTheWay(fs, cfg, rootDevice, root, path, |path| - 1, r);
    VisitedIsDone(fs, cfg, rootDevice, r, dir);
    DoneReports(fs, cfg, rootDevice, dir, path, r);
  }

  lemma LastStep(fs: FileSystem, cfg: Config, rootDevice: nat, root: Key, path: Key)
    requires Leads(fs, cfg, rootDevice, root, path)
    ensures |root| <= |path| - 1 && |path| >= 1 && path[..|path| - 1] < path && ListedIn(fs, path[..|path| - 1], path[|path| - 1])
  {
    hide Enterable;
    hide ListedIn;
  }

  lemma DoneReports(fs: FileSystem, cfg: Config, rootDevice: nat, dir: Key, path: Key, r: Walked)
    requires Done(fs, cfg, rootDevice, dir, r) && |path| == |dir| + 1 && dir < path && ListedIn(fs, dir, path[|dir|])
    ensures Reportable(fs, cfg, path) ==> path in r.result.files
    ensures Enterable(fs, cfg, rootDevice, path) ==> IsDirectory(fs, path) && IdentityOf(fs, path) in r.visited
  {
    hide Reportable;
    hide ListedIn;
  }

  /** The walk of a root reports only regular files that are not hidden and that the directories from
      the root on lead to; and where no directory has two paths, it reports every one of them. */
  lemma WalkReportsExactly(fs: FileSystem, cfg: Config, universe: set<Identity>, root: Key, path: Key)
    requires Finite(fs, universe)
    ensures path in WalkRoot(fs, cfg, universe, root).files ==> IsUnder(fs, cfg, root, path)
    ensures OnePathEach(fs) && IsUnder(fs, cfg, root, path) ==> path in WalkRoot(fs, cfg, universe, root).files
  {
    if fs.lstat(root).Some? {
      ClassOf(fs, cfg, fs.lstat(root).value.device, root);
    } else {
      ClassOf(fs, cfg, 0, root);
    }
    if !Hidden(cfg, root) && IsDirectory(fs, root) {
      var device := fs.lstat(root).value.device;
      VisitFromRoot(fs, cfg, device, universe, root, path);
    }
    hide Visit;
    hide Finite;
    hide Leads;
    hide OnePathEach;
    hide Hidden;
    hide Config.Excludes;
  }

  lemma VisitFromRoot(fs: FileSystem, cfg: Config, device: nat, universe: set<Identity>, root: Key, path: Key)
    requires Finite(fs, universe) && IsDirectory(fs, root)
    ensures var files := Visit(fs, cfg, device, universe, [root], Walked(NOTHING, {})).result.files;
            && (path in files ==> Leads(fs, cfg, device, root, path) && Reportable(fs, cfg, path))
            && (OnePathEach(fs) && Leads(fs, cfg, device, root, path) && Reportable(fs, cfg, path) ==> path in files)
  {
    var start := Walked(NOTHING, {});
    var r := Visit(fs, cfg, device, universe, [root], start);
    VisitReportsOnly(fs, cfg, device, universe, [root], start);
    assert r.result.files[0..] == r.result.files;
    if OnePathEach(fs) {
      VisitCloses(fs, cfg, device, universe, [root], start);
      assert root in [root];
      if Leads(fs, cfg, device, root, path) && Reportable(fs, cfg, path) {
        LedToIsReported(fs, cfg, device, root, path, r);
      }
    }
    hide Visit;
    hide Leads;
    hide Reportable;
    hide Done;
    hide Finite;
  }

  // ---------- the tallies ----------

  /** The issues of one listing name exactly the entries that `lstat` refuses. */
  lemma {:induction false} UnreadableEntries(fs: FileSystem, cfg: Config, rootDevice: nat, dir: Key,
                                             names: seq<string>, r: Result, x: (Key, IssueCode))
    ensures var n := Entries(fs, cfg, rootDevice, dir, names, r).0;
            && r.issues <= n.issues
            && (x in n.issues[|r.issues|..] <==>
                  Entry(dir, names, x.0) && !Hidden(cfg, x.0) && fs.lstat(x.0).None? && x.1 == EntryUnreadable)
  {
    if names == [] {
      assert r.issues[|r.issues|..] == [];
    } else {
      var front, name := names[..|names| - 1], names[|names| - 1];
      assert names == front + [name];
      var e, n := Entries(fs, cfg, rootDevice, dir, front, r).0, Entries(fs, cfg, rootDevice, dir, names, r).0;
      hide *;
      UnreadableEntries(fs, cfg, rootDevice, dir, front, r, x);
      IssuesNext(fs, cfg, rootDevice, dir, front, name, r);
      OneMoreName(dir, front, name, x.0);
      OneMoreIssue(r.issues, e.issues, (dir + [name], EntryUnreadable), x);
    }
  }

  lemma IssuesNext(fs: FileSystem, cfg: Config, rootDevice: nat, dir: Key, front: seq<string>, name: string, r: Result)
    ensures var e, n := Entries(fs, cfg, rootDevice, dir, front, r).0,
                        Entries(fs, cfg, rootDevice, dir, front + [name], r).0;
            n.issues == if !Hidden(cfg, dir + [name]) && fs.lstat(dir + [name]).None?
                        then e.issues + [(dir + [name], EntryUnreadable)] else e.issues
  {
    ClassOf(fs, cfg, rootDevice, dir + [name]);
    assert (front + [name])[..|front|] == front;
    hide Hidden;
    hide Config.Excludes;
    hide Enterable;
    hide Reportable;
  }

  lemma OneMoreIssue(before: seq<(Key, IssueCode)>, e: seq<(Key, IssueCode)>, i: (Key, IssueCode), x: (Key, IssueCode))
    requires before <= e
    ensures before <= e + [i]
    ensures x in (e + [i])[|before|..] <==> x in e[|before|..] || x == i
  {
    assert (e + [i])[|before|..] == e[|before|..] + [i];
  }

  /** A directory is an issue of its own exactly if it cannot be looked at, or is new and cannot be listed;
      one that was visited before counts as a link. */
  lemma UnreadableDirectory(fs: FileSystem, cfg: Config, rootDevice: nat, w: Walked, dir: Key)
    ensures var n, s := Opened(fs, cfg, rootDevice, w, dir).0.result, fs.lstat(dir);
            var seen := s.Some? && s.value.inode != 0 && (s.value.device, s.value.inode) in w.visited;
            && w.result.issues <= n.issues
            && ((dir, DirectoryUnreadable) in n.issues[|w.result.issues|..] <==>
                  s.None? || (!seen && fs.list(dir).None?))
            && (seen ==> n == w.result.(links := w.result.links + 1))
  {
    if fs.lstat(dir).Some? && fs.list(dir).Some? {
      UnreadableEntries(fs, cfg, rootDevice, dir, fs.list(dir).value, w.result, (dir, DirectoryUnreadable));
    }
    hide Entries;
    assert w.result.issues[|w.result.issues|..] == [];
  }

  function Count(names: seq<string>, p: string -> bool): nat {
    if names == [] then 0 else Count(names[..|names| - 1], p) + if p(names[|names| - 1]) then 1 else 0
  }

  /** The path is not hidden, and `lstat` says this of it. */
  predicate Is(fs: FileSystem, cfg: Config, path: Key, kind: Kind) {
    !Hidden(cfg, path) && fs.lstat(path).Some? && fs.lstat(path).value.kind == kind
  }

  /** A root that is no directory to enter is itself what is tallied, and nothing else is. */
  lemma RootAlone(fs: FileSystem, cfg: Config, universe: set<Identity>, root: Key)
    requires Finite(fs, universe) && (Hidden(cfg, root) || !IsDirectory(fs, root))
    ensures var r := WalkRoot(fs, cfg, universe, root);
            && Total(r) == 1
            && (r.excluded == 1 <==> Hidden(cfg, root))
            && (r.issues == [(root, RootUnreadable)] <==> !Hidden(cfg, root) && fs.lstat(root).None?)
            && (r.links == 1 <==> Is(fs, cfg, root, LinkKind))
            && (r.special == 1 <==> Is(fs, cfg, root, SpecialKind))
            && (r.files == [root] <==> Is(fs, cfg, root, RegularKind))
  {
    ClassOf(fs, cfg, 0, root);
    hide Hidden;
    hide Config.Excludes;
    hide Finite;
  }

  /** What each tally of one listing counts. */
  lemma {:induction false} TalliesAreExact(fs: FileSystem, cfg: Config, rootDevice: nat, dir: Key,
                                           names: seq<string>, r: Result)
    ensures var n := Entries(fs, cfg, rootDevice, dir, names, r).0;
            && n.excluded == r.excluded + Count(names, x => Hidden(cfg, dir + [x]))
            && n.links == r.links + Count(names, x => Is(fs, cfg, dir + [x], LinkKind))
            && n.special == r.special + Count(names, x => Is(fs, cfg, dir + [x], SpecialKind))
            && n.filesystems == r.filesystems + Count(names, x => Is(fs, cfg, dir + [x], DirectoryKind)
                                                                  && !Enterable(fs, cfg, rootDevice, dir + [x]))
            && |n.issues| == |r.issues| + Count(names, x => !Hidden(cfg, dir + [x]) && fs.lstat(dir + [x]).None?)
  {
    if names != [] {
      TalliesAreExact(fs, cfg, rootDevice, dir, names[..|names| - 1], r);
      ClassOf(fs, cfg, rootDevice, dir + [names[|names| - 1]]);
      hide Hidden;
      hide Config.Excludes;
    }
  }
}
