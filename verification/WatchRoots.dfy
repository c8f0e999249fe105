/**
 Watch roots reduced to pairwise non-nested directories, and why a walk over such roots reports
 every path once, so that scanning without path deduplication changes nothing.
 */
module WatchRoots {
  import opened Orders
  import opened Paths
  import opened DirectoryWalk

  /** Length of the path text: every component with its separator. */
  function TextLength(key: Key): nat {
    if key == [] then 0 else TextLength(key[..|key| - 1]) + |key[|key| - 1]| + 1
  }

  /** The order of `(len(key), key)`: total, and shorter text first. */
  ghost predicate ShortestFirst(le: (Key, Key) -> bool) {
    TotalOrder(le) && forall a, b :: le(a, b) ==> TextLength(a) <= TextLength(b)
  }

  datatype RootError = InsideStateDirectory | NotAccessible | IsLink | NotDirectory | NoRoots

  datatype Normalized = Roots(keys: seq<Key>) | Refused(error: RootError)

  ghost predicate Antichain(keys: seq<Key>) {
    forall i, j :: 0 <= i < |keys| && 0 <= j < |keys| && i != j ==> !Within(keys[i], keys[j])
  }

  ghost predicate Covers(keys: seq<Key>, p: Key) {
    exists k :: k in keys && Within(p, k)
  }

  /** The first problem of one requested root, in the order the code checks. */
  function Problem(fs: FileSystem, stateKey: Key, key: Key): Option<RootError> {
    if Within(key, stateKey) then Some(InsideStateDirectory)
    else
      match fs.lstat(key)
      case None => Some(NotAccessible)
      case Some(s) =>
        if s.kind.LinkKind? then Some(IsLink) else if !s.kind.DirectoryKind? then Some(NotDirectory) else None
  }

  /** What each refusal of a root says about it; a root that none applies to is a directory, not a link,
      outside the state directory. */
  predicate Explains(fs: FileSystem, stateKey: Key, key: Key, error: RootError) {
    match error
    case InsideStateDirectory => stateKey <= key
    case NotAccessible => !(stateKey <= key) && fs.lstat(key).None?
    case IsLink => !(stateKey <= key) && fs.lstat(key).Some? && fs.lstat(key).value.kind == LinkKind
    case NotDirectory =>
      !(stateKey <= key) && fs.lstat(key).Some? && fs.lstat(key).value.kind in {RegularKind, SpecialKind}
    case NoRoots => false
  }

  lemma ProblemExplains(fs: FileSystem, stateKey: Key, key: Key)
    ensures Problem(fs, stateKey, key).Some? ==> Explains(fs, stateKey, key, Problem(fs, stateKey, key).value)
    ensures Problem(fs, stateKey, key).None? <==>
            !(stateKey <= key) && fs.lstat(key).Some? && fs.lstat(key).value.kind == DirectoryKind
  {
  }

  lemma {:induction false} AncestorIsShorter(a: Key, b: Key)
    requires Within(a, b)
    ensures TextLength(b) <= TextLength(a) && (a != b ==> TextLength(b) < TextLength(a))
    decreases |a|
  {
    if a != b {
      var parent := a[..|a| - 1];
      assert parent[..|b|] == b;
      AncestorIsShorter(parent, b);
    }
  }

  method NormalizeWatchRoots(fs: FileSystem, requested: seq<Key>, stateKey: Key, le: (Key, Key) -> bool)
    returns (r: Normalized)
    requires ShortestFirst(le)
    ensures r.Roots? <==>
              requested != []
              && forall k :: k in requested ==>
                   !(stateKey <= k) && fs.lstat(k).Some? && fs.lstat(k).value.kind == DirectoryKind
    ensures r.Roots? ==> r.keys != [] && Antichain(r.keys)
    ensures r.Roots? ==> forall k :: k in r.keys ==> k in requested
    ensures r.Roots? ==> forall p :: Covers(requested, p) <==> Covers(r.keys, p)
    ensures r.Refused? && requested == [] ==> r.error == NoRoots
    ensures r.Refused? && requested != [] ==>
              exists i :: 0 <= i < |requested| && Explains(fs, stateKey, requested[i], r.error)
                          && forall j, e :: 0 <= j < i ==> !Explains(fs, stateKey, requested[j], e)
  {
    for i := 0 to |requested|
      invariant forall j :: 0 <= j < i ==>
                  !(stateKey <= requested[j]) && fs.lstat(requested[j]).Some?
                  && fs.lstat(requested[j]).value.kind == DirectoryKind
    {
      ProblemExplains(fs, stateKey, requested[i]);
      var problem := Problem(fs, stateKey, requested[i]);
      if problem.Some? {
        assert requested[i] in requested;
        return Refused(problem.value);
      }
    }
    hide Problem;
    hide Explains;
    if requested == [] {
      return Refused(NoRoots);
    }
    var unique := KeepOutermost(requested, le);
    CoversSomething(requested, unique, requested[0]);
    return Roots(unique);
  }

  lemma CoversSomething(requested: seq<Key>, unique: seq<Key>, p: Key)
    requires p in requested && forall q :: Covers(requested, q) <==> Covers(unique, q)
    ensures unique != []
  {
    assert Within(p, p);
    assert Covers(requested, p);
  }

  /** The greedy loop over the candidates, shortest first. */
  method KeepOutermost(candidates: seq<Key>, le: (Key, Key) -> bool) returns (unique: seq<Key>)
    requires ShortestFirst(le)
    ensures Antichain(unique)
    ensures forall k :: k in unique ==> k in candidates
    ensures forall p :: Covers(candidates, p) <==> Covers(unique, p)
  {
    hide *;
    OrderIsTotal(le);
    var sorted := Sort(le, candidates);
    SortSorts(le, candidates);
    unique := [];
    NothingKept(sorted);
    for i := 0 to |sorted|
      invariant KeptOf(sorted[..i], unique)
    {
      var candidate := sorted[i];
      if exists root :: root in unique && Within(candidate, root) {
        SkipNext(sorted, i, unique);
        continue;
      }
      AddNext(le, sorted, i, unique);
      unique := unique + [candidate];
    }
    KeptCovers(le, candidates, unique);
  }

  /** The roots kept so far are candidates seen so far, not nested, and cover all of those. */
  ghost predicate KeptOf(done: seq<Key>, unique: seq<Key>) {
    && Antichain(unique)
    && (forall k :: k in unique ==> k in done)
    && (forall k :: k in done ==> Covers(unique, k))
  }

  lemma NothingKept(sorted: seq<Key>)
    ensures KeptOf(sorted[..0], [])
  {
  }

  lemma SkipNext(sorted: seq<Key>, i: nat, unique: seq<Key>)
    requires i < |sorted| && KeptOf(sorted[..i], unique)
    requires exists root :: root in unique && Within(sorted[i], root)
    ensures KeptOf(sorted[..i + 1], unique)
  {
    hide *;
    CoveredAlready(unique, sorted[i]);
    KeepAsIs(sorted[..i], unique, sorted[i]);
    assert sorted[..i + 1] == sorted[..i] + [sorted[i]];
  }

  lemma AddNext(le: (Key, Key) -> bool, sorted: seq<Key>, i: nat, unique: seq<Key>)
    requires ShortestFirst(le) && Sorted(le, sorted) && i < |sorted| && KeptOf(sorted[..i], unique)
    requires !exists root :: root in unique && Within(sorted[i], root)
    ensures KeptOf(sorted[..i + 1], unique + [sorted[i]])
  {
    hide *;
    KeptUnrolled(sorted[..i], unique);
    OutermostGrows(le, sorted, i, unique);
    KeepOneMore(sorted[..i], unique, sorted[i]);
    assert sorted[..i + 1] == sorted[..i] + [sorted[i]];
  }

  lemma KeptUnrolled(done: seq<Key>, unique: seq<Key>)
    requires KeptOf(done, unique)
    ensures Antichain(unique) && forall k :: k in unique ==> k in done
  {
    hide Covers;
    hide Antichain;
  }

  lemma KeepAsIs(done: seq<Key>, unique: seq<Key>, candidate: Key)
    requires KeptOf(done, unique) && Covers(unique, candidate)
    ensures KeptOf(done + [candidate], unique)
  {
    hide Covers;
    hide Antichain;
  }

  lemma KeepOneMore(done: seq<Key>, unique: seq<Key>, candidate: Key)
    requires KeptOf(done, unique) && Antichain(unique + [candidate])
    ensures KeptOf(done + [candidate], unique + [candidate])
  {
    StillCovers(unique, candidate, done);
    hide Covers;
    hide Antichain;
  }

  lemma KeptCovers(le: (Key, Key) -> bool, candidates: seq<Key>, unique: seq<Key>)
    requires KeptOf(Sort(le, candidates)[..|Sort(le, candidates)|], unique)
    ensures Antichain(unique) && forall k :: k in unique ==> k in candidates
    ensures forall p :: Covers(candidates, p) <==> Covers(unique, p)
  {
    hide *;
    var sorted := Sort(le, candidates);
    assert sorted[..|sorted|] == sorted;
    SameElements(sorted, candidates);
    KeptMeans(sorted, unique);
    CoverEqually(candidates, sorted, unique);
  }

  lemma KeptMeans(done: seq<Key>, unique: seq<Key>)
    requires KeptOf(done, unique)
    ensures Antichain(unique) && (forall k :: k in unique ==> k in done) && forall k :: k in done ==> Covers(unique, k)
  {
    hide Covers;
    hide Antichain;
  }

  lemma OrderIsTotal(le: (Key, Key) -> bool)
    requires ShortestFirst(le)
    ensures TotalOrder(le)
  {
  }

  lemma CoveredAlready(unique: seq<Key>, candidate: Key)
    requires exists root :: root in unique && Within(candidate, root)
    ensures Covers(unique, candidate)
  {
  }

  /** A candidate inside no kept root is nested with none of them, since all are shorter. */
  lemma OutermostGrows(le: (Key, Key) -> bool, sorted: seq<Key>, i: nat, unique: seq<Key>)
    requires ShortestFirst(le) && Sorted(le, sorted) && i < |sorted| && Antichain(unique)
    requires forall k :: k in unique ==> k in sorted[..i]
    requires forall k :: k in unique ==> !Within(sorted[i], k)
    ensures Antichain(unique + [sorted[i]])
  {
    hide ShortestFirst;
    hide Sorted;
    forall k | k in unique ensures !Within(k, sorted[i]) {
      assert k in sorted[..i];
      var j :| 0 <= j < i && sorted[..i][j] == k;
      assert sorted[j] == k;
      LaterIsNotAbove(le, k, sorted[i], sorted, j, i);
    }
    var more := unique + [sorted[i]];
    forall a, b | 0 <= a < |more| && 0 <= b < |more| && a != b ensures !Within(more[a], more[b]) {
      if a < |unique| && b < |unique| {
        assert !Within(unique[a], unique[b]);
      } else if a < |unique| {
        assert unique[a] in unique;
      } else {
        assert unique[b] in unique;
      }
    }
  }

  lemma LaterIsNotAbove(le: (Key, Key) -> bool, early: Key, late: Key, sorted: seq<Key>, j: nat, i: nat)
    requires ShortestFirst(le) && Sorted(le, sorted) && j < i < |sorted| && sorted[j] == early && sorted[i] == late
    requires !Within(late, early)
    ensures !Within(early, late)
  {
    if Within(early, late) {
      AncestorIsShorter(early, late);
    }
  }

  lemma StillCovers(unique: seq<Key>, candidate: Key, done: seq<Key>)
    requires forall k :: k in done ==> Covers(unique, k)
    ensures forall k :: k in done + [candidate] ==> Covers(unique + [candidate], k)
  {
    forall k | k in done + [candidate] ensures Covers(unique + [candidate], k) {
      if k in done {
        var u :| u in unique && Within(k, u);
        assert u in unique + [candidate];
      } else {
        assert candidate in unique + [candidate] && Within(k, candidate);
      }
    }
  }

  lemma SameElements<T>(a: seq<T>, b: seq<T>)
    requires multiset(a) == multiset(b)
    ensures forall x :: x in a <==> x in b
  {
    forall x ensures x in a <==> x in b {
      assert x in multiset(a) <==> x in multiset(b);
    }
  }

  lemma CoverEqually(candidates: seq<Key>, sorted: seq<Key>, unique: seq<Key>)
    requires forall k :: k in candidates <==> k in sorted
    requires forall k :: k in unique ==> k in sorted
    requires forall k :: k in sorted ==> Covers(unique, k)
    ensures forall p :: Covers(candidates, p) <==> Covers(unique, p)
  {
  }

  // ---------- a walk reports each path once ----------

  /** Listings name each entry once. */
  ghost predicate DistinctListings(fs: FileSystem) {
    forall d :: fs.list(d).Some? ==> Distinct(fs.list(d).value)
  }

  /** `after` extends `before` by distinct paths strictly below the given directories. */
  ghost predicate Extends(before: seq<Key>, after: seq<Key>, dirs: seq<Key>) {
    && before <= after
    && Distinct(after[|before|..])
    && forall f :: f in after[|before|..] ==> Below(f, dirs)
  }

  ghost predicate Below(f: Key, dirs: seq<Key>) {
    exists d :: d in dirs && Within(f, d) && |d| < |f|
  }

  /** The new files and children of one listing are distinct direct entries of the directory. */
  ghost predicate DirectEntries(fs: FileSystem, cfg: Config, rootDevice: nat, dir: Key, names: seq<string>,
                                paths: seq<Key>, c: Class) {
    && Distinct(paths)
    && forall p :: p in paths ==>
         |p| == |dir| + 1 && p[..|dir|] == dir && p[|dir|] in names && Classify(fs, cfg, rootDevice, p) == c
  }

  lemma DirectEntriesGrow(fs: FileSystem, cfg: Config, rootDevice: nat, dir: Key, names: seq<string>, name: string,
                          paths: seq<Key>, c: Class)
    requires DirectEntries(fs, cfg, rootDevice, dir, names, paths, c) && name !in names
    ensures DirectEntries(fs, cfg, rootDevice, dir, names + [name],
                          paths + Only(fs, cfg, rootDevice, dir + [name], c), c)
  {
    hide Classify;
  }

  lemma {:induction false} EntriesAreDirect(fs: FileSystem, cfg: Config, rootDevice: nat, dir: Key,
                                            names: seq<string>, r: Result)
    requires Distinct(names)
    ensures var e := Entries(fs, cfg, rootDevice, dir, names, r);
            && r.files <= e.0.files
            && DirectEntries(fs, cfg, rootDevice, dir, names, e.0.files[|r.files|..], File)
            && DirectEntries(fs, cfg, rootDevice, dir, names, e.1, Child)
  {
    if names != [] {
      var front, name := names[..|names| - 1], names[|names| - 1];
      assert names == front + [name];
      EntriesAreDirect(fs, cfg, rootDevice, dir, front, r);
      EntriesNext(fs, cfg, rootDevice, dir, names, r);
      var before := Entries(fs, cfg, rootDevice, dir, front, r);
      hide *;
      DirectEntriesGrow(fs, cfg, rootDevice, dir, front, name, before.0.files[|r.files|..], File);
      DirectEntriesGrow(fs, cfg, rootDevice, dir, front, name, before.1, Child);
    } else {
      assert r.files[|r.files|..] == [];
    }
  }

  lemma EntriesNext(fs: FileSystem, cfg: Config, rootDevice: nat, dir: Key, names: seq<string>, r: Result)
    requires names != []
    requires r.files <= Entries(fs, cfg, rootDevice, dir, names[..|names| - 1], r).0.files
    ensures var before := Entries(fs, cfg, rootDevice, dir, names[..|names| - 1], r);
            var after := Entries(fs, cfg, rootDevice, dir, names, r);
            var path := dir + [names[|names| - 1]];
            && r.files <= after.0.files
            && after.0.files[|r.files|..] == before.0.files[|r.files|..] + Only(fs, cfg, rootDevice, path, File)
            && after.1 == before.1 + Only(fs, cfg, rootDevice, path, Child)
  {
    hide Classify;
  }

  function Only(fs: FileSystem, cfg: Config, rootDevice: nat, path: Key, c: Class): seq<Key> {
    if Classify(fs, cfg, rootDevice, path) == c then [path] else []
  }

  lemma SiblingsAreNotNested(fs: FileSystem, cfg: Config, rootDevice: nat, dir: Key, names: seq<string>,
                             children: seq<Key>)
    requires DirectEntries(fs, cfg, rootDevice, dir, names, children, Child)
    ensures Antichain(children)
  {
    hide Classify;
    forall i, j | 0 <= i < |children| && 0 <= j < |children| && i != j ensures !Within(children[i], children[j]) {
      assert children[i] in children && children[j] in children;
      assert children[i] != children[j] by { if i < j {} else {} }
    }
  }

  lemma ExtendsInTurn(a: seq<Key>, b: seq<Key>, c: seq<Key>, first: seq<Key>, second: seq<Key>, dirs: seq<Key>)
    requires Extends(a, b, first) && Extends(b, c, second)
    requires forall f :: Below(f, first) ==> Below(f, dirs)
    requires forall f :: Below(f, second) ==> Below(f, dirs)
    requires forall f :: f in b[|a|..] ==> f !in c[|b|..]
    ensures Extends(a, c, dirs)
  {
    hide Below;
    assert c[|a|..] == b[|a|..] + c[|b|..];
    DistinctInTurn(b[|a|..], c[|b|..]);
  }

  lemma DistinctInTurn(a: seq<Key>, b: seq<Key>)
    requires Distinct(a) && Distinct(b) && forall f :: f in a ==> f !in b
    ensures Distinct(a + b)
  {
    forall i, j | 0 <= i < j < |a + b| ensures (a + b)[i] != (a + b)[j] {
      if i < |a| <= j {
        assert a[i] in a && b[j - |a|] in b;
      }
    }
  }

  /** The files of a directory are not among those below its children. */
  lemma OwnFilesAreElsewhere(fs: FileSystem, cfg: Config, rootDevice: nat, dir: Key, names: seq<string>,
                             files: seq<Key>, children: seq<Key>, f: Key)
    requires DirectEntries(fs, cfg, rootDevice, dir, names, files, File)
    requires DirectEntries(fs, cfg, rootDevice, dir, names, children, Child)
    requires f in files
    ensures !Below(f, children)
  {
  }

  lemma ApartBelow(dir: Key, rest: seq<Key>, f: Key)
    requires forall d :: d in rest ==> !Within(d, dir) && !Within(dir, d)
    requires Below(f, [dir])
    ensures !Below(f, rest)
  {
  }

  /** What popping one directory contributes, its children not yet visited. */
  lemma OpenedExtends(fs: FileSystem, cfg: Config, rootDevice: nat, w: Walked, dir: Key)
    requires DistinctListings(fs)
    ensures var o := Opened(fs, cfg, rootDevice, w, dir);
            && Extends(w.result.files, o.0.result.files, [dir])
            && Antichain(o.1) && (forall c :: c in o.1 ==> Within(c, dir) && |dir| < |c|)
            && (forall f :: f in o.0.result.files[|w.result.files|..] ==> !Below(f, o.1))
  {
    hide Classify;
    hide Entries;
    var o := Opened(fs, cfg, rootDevice, w, dir);
    var names := if fs.list(dir).Some? then fs.list(dir).value else [];
    EntriesAreDirect(fs, cfg, rootDevice, dir, names, w.result);
    var e := Entries(fs, cfg, rootDevice, dir, names, w.result);
    var files := e.0.files[|w.result.files|..];
    SiblingsAreNotNested(fs, cfg, rootDevice, dir, names, e.1);
    forall f | f in files ensures Below(f, [dir]) && !Below(f, e.1) {
      assert Within(f, dir) && dir in [dir];
      OwnFilesAreElsewhere(fs, cfg, rootDevice, dir, names, files, e.1, f);
    }
    hide Below;
    assert w.result.files[|w.result.files|..] == [];
  }

  /** Visiting non-nested directories reports distinct paths, each strictly below one of them. */
  lemma {:induction false} VisitExtends(fs: FileSystem, cfg: Config, rootDevice: nat, universe: set<Identity>,
                                        dirs: seq<Key>, w: Walked)
    requires Finite(fs, universe) && DistinctListings(fs) && Antichain(dirs)
    ensures Extends(w.result.files, Visit(fs, cfg, rootDevice, universe, dirs, w).result.files, dirs)
    decreases |universe - w.visited|, |dirs|
  {
    if dirs == [] {
      assert w.result.files[|w.result.files|..] == [];
    } else {
      var dir := dirs[0];
      OpenedProgress(fs, cfg, rootDevice, universe, w, dir);
      OpenedExtends(fs, cfg, rootDevice, w, dir);
      hide Opened;
      var o := Opened(fs, cfg, rootDevice, w, dir);
      var inner := Visit(fs, cfg, rootDevice, universe, o.1, o.0);
      NoMore(universe, o.0.visited, inner.visited);
      VisitExtends(fs, cfg, rootDevice, universe, o.1, o.0);
      assert Antichain(dirs[1..]);
      VisitExtends(fs, cfg, rootDevice, universe, dirs[1..], inner);
      var last := Visit(fs, cfg, rootDevice, universe, dirs[1..], inner);
      assert last == Visit(fs, cfg, rootDevice, universe, dirs, w);
      hide Visit;
      ChildrenThenRest(w.result.files, o.0.result.files, inner.result.files, last.result.files, dir, o.1, dirs);
    }
  }

  lemma ChildrenThenRest(start: seq<Key>, own: seq<Key>, inner: seq<Key>, last: seq<Key>,
                         dir: Key, children: seq<Key>, dirs: seq<Key>)
    requires dirs != [] && dirs[0] == dir && Antichain(dirs)
    requires Extends(start, own, [dir]) && Extends(own, inner, children) && Extends(inner, last, dirs[1..])
    requires forall c :: c in children ==> Within(c, dir) && |dir| < |c|
    requires forall f :: f in own[|start|..] ==> !Below(f, children)
    ensures Extends(start, last, dirs)
  {
    forall f | Below(f, children) ensures Below(f, [dir]) {
      var c :| c in children && Within(f, c) && |c| < |f|;
      WithinIsTransitive(f, c, dir);
      assert dir in [dir];
    }
    forall f | f in own[|start|..] ensures f !in inner[|own|..] {
    }
    ExtendsInTurn(start, own, inner, [dir], children, [dir]);
    forall f | f in inner[|start|..] ensures f !in last[|inner|..] {
      forall d | d in dirs[1..] ensures !Within(d, dir) && !Within(dir, d) {
        var i :| 0 <= i < |dirs[1..]| && dirs[1..][i] == d;
        assert d == dirs[i + 1];
      }
      ApartBelow(dir, dirs[1..], f);
    }
    forall f | Below(f, [dir]) ensures Below(f, dirs) {
      assert dir in dirs;
    }
    forall f | Below(f, dirs[1..]) ensures Below(f, dirs) {
      var d :| d in dirs[1..] && Within(f, d) && |d| < |f|;
      assert d in dirs;
    }
    ExtendsInTurn(start, inner, last, [dir], dirs[1..], dirs);
  }

  lemma WalkStaysBelow(fs: FileSystem, cfg: Config, universe: set<Identity>, root: Key)
    requires Finite(fs, universe) && DistinctListings(fs)
    ensures Distinct(WalkRoot(fs, cfg, universe, root).files)
    ensures forall f :: f in WalkRoot(fs, cfg, universe, root).files ==> Within(f, root)
  {
    if fs.lstat(root).Some? {
      VisitExtends(fs, cfg, fs.lstat(root).value.device, universe, [root], Walked(NOTHING, {}));
    }
    hide Visit;
    hide Extends;
    var files := WalkRoot(fs, cfg, universe, root).files;
    assert files == [] || files == [root] || Extends([], files, [root]);
    BelowOne(files, root);
  }

  lemma BelowOne(files: seq<Key>, root: Key)
    requires files == [] || files == [root] || Extends([], files, [root])
    ensures Distinct(files) && forall f :: f in files ==> Within(f, root)
  {
  }

  // ---------- scanning several roots ----------

  /** The files of all roots, in order. */
  ghost function AllFiles(fs: FileSystem, cfg: Config, universe: set<Identity>, roots: seq<Key>): seq<Key>
    requires Finite(fs, universe)
  {
    if roots == [] then []
    else AllFiles(fs, cfg, universe, roots[..|roots| - 1]) + WalkRoot(fs, cfg, universe, roots[|roots| - 1]).files
  }

  /** First occurrences only. */
  function FirstOccurrences(xs: seq<Key>): seq<Key> {
    if xs == [] then []
    else
      var front, x := xs[..|xs| - 1], xs[|xs| - 1];
      if x in front then FirstOccurrences(front) else FirstOccurrences(front) + [x]
  }

  lemma {:induction false} DistinctNeedsNoFilter(xs: seq<Key>)
    requires Distinct(xs)
    ensures FirstOccurrences(xs) == xs
  {
    if xs != [] {
      DistinctNeedsNoFilter(xs[..|xs| - 1]);
      assert xs == xs[..|xs| - 1] + [xs[|xs| - 1]];
    }
  }

  /** What is left are the same paths, each once, the first time it occurs. */
  lemma {:induction false} FilteredIsDistinct(xs: seq<Key>)
    ensures Distinct(FirstOccurrences(xs)) && forall x :: x in FirstOccurrences(xs) <==> x in xs
  {
    if xs != [] {
      FilteredIsDistinct(xs[..|xs| - 1]);
      assert xs == xs[..|xs| - 1] + [xs[|xs| - 1]];
    }
  }

  /** No path is visited twice by a walk over non-nested roots. */
  lemma {:induction false} NoPathTwice(fs: FileSystem, cfg: Config, universe: set<Identity>, roots: seq<Key>)
    requires Finite(fs, universe) && DistinctListings(fs) && Antichain(roots)
    ensures Distinct(AllFiles(fs, cfg, universe, roots))
    ensures forall f :: f in AllFiles(fs, cfg, universe, roots) ==> Covers(roots, f)
  {
    if roots != [] {
      var front, last := roots[..|roots| - 1], roots[|roots| - 1];
      hide WalkRoot;
      assert Antichain(front);
      NoPathTwice(fs, cfg, universe, front);
      WalkStaysBelow(fs, cfg, universe, last);
      var before, more := AllFiles(fs, cfg, universe, front), WalkRoot(fs, cfg, universe, last).files;
      forall f | f in before ensures f !in more && Covers(roots, f) {
        var i :| 0 <= i < |front| && Within(f, front[i]);
        assert front[i] == roots[i];
        if f in more {
          if |front[i]| <= |last| { SharedDescendantNests(f, front[i], last); }
          else { SharedDescendantNests(f, last, front[i]); }
        }
      }
      forall f | f in more ensures Covers(roots, f) {
        assert last in roots;
      }
      hide Covers;
      hide Antichain;
      DistinctInTurn(before, more);
    }
  }

  /** The scanner's loop over its roots, with or without the set of seen paths. */
  method FilesToScan(fs: FileSystem, cfg: Config, ghost universe: set<Identity>, roots: seq<Key>,
                     le: (Key, Key) -> bool, deduplicate: bool) returns (files: seq<Key>)
    requires Finite(fs, universe)
    ensures var all := AllFiles(fs, cfg, universe, Sort(le, roots));
            files == if deduplicate then FirstOccurrences(all) else all
  {
    var sorted := Sort(le, roots);
    files := [];
    ghost var all: seq<Key> := [];
    var seen: set<Key> := {};
    hide WalkRoot;
    hide Sort;
    for i := 0 to |sorted|
      invariant all == AllFiles(fs, cfg, universe, sorted[..i])
      invariant files == if deduplicate then FirstOccurrences(all) else all
      invariant deduplicate ==> forall f :: f in seen <==> f in all
    {
      AllFilesNext(fs, cfg, universe, sorted, i);
      var walked := IterRegularFiles(fs, cfg, universe, sorted[i]);
      hide *;
      files, seen := KeepUnseen(all, walked.files, files, seen, deduplicate);
      all := all + walked.files;
    }
    assert sorted[..|sorted|] == sorted;
  }

  lemma AllFilesNext(fs: FileSystem, cfg: Config, universe: set<Identity>, roots: seq<Key>, i: nat)
    requires Finite(fs, universe) && i < |roots|
    ensures AllFiles(fs, cfg, universe, roots[..i + 1]) ==
            AllFiles(fs, cfg, universe, roots[..i]) + WalkRoot(fs, cfg, universe, roots[i]).files
  {
    assert roots[..i + 1][..i] == roots[..i];
    hide WalkRoot;
  }

  /** The paths of one root: each is passed on unless it was seen before. */
  method KeepUnseen(ghost before: seq<Key>, walked: seq<Key>, kept: seq<Key>, known: set<Key>, deduplicate: bool)
    returns (files: seq<Key>, seen: set<Key>)
    requires kept == if deduplicate then FirstOccurrences(before) else before
    requires deduplicate ==> forall f :: f in known <==> f in before
    ensures files == if deduplicate then FirstOccurrences(before + walked) else before + walked
    ensures deduplicate ==> forall f :: f in seen <==> f in before + walked
  {
    files, seen := kept, known;
    assert before + walked[..0] == before;
    for k := 0 to |walked|
      invariant files == if deduplicate then FirstOccurrences(before + walked[..k]) else before + walked[..k]
      invariant deduplicate ==> forall f :: f in seen <==> f in before + walked[..k]
    {
      var path := walked[k];
      ghost var sofar := before + walked[..k];
      assert before + walked[..k + 1] == sofar + [path];
      assert (sofar + [path])[..|sofar|] == sofar;
      if deduplicate {
        if path in seen {
          continue;
        }
        seen := seen + {path};
      }
      files := files + [path];
    }
    assert walked[..|walked|] == walked;
  }

  /** Over normalised roots, deduplication makes no difference. */
  lemma DeduplicationIsRedundant(fs: FileSystem, cfg: Config, universe: set<Identity>, roots: seq<Key>,
                                 le: (Key, Key) -> bool)
    requires Finite(fs, universe) && DistinctListings(fs) && Antichain(roots)
    ensures var all := AllFiles(fs, cfg, universe, Sort(le, roots)); FirstOccurrences(all) == all
  {
    PermutedAntichain(roots, Sort(le, roots));
    NoPathTwice(fs, cfg, universe, Sort(le, roots));
    DistinctNeedsNoFilter(AllFiles(fs, cfg, universe, Sort(le, roots)));
  }

  lemma PermutedAntichain(a: seq<Key>, b: seq<Key>)
    requires Antichain(a) && multiset(a) == multiset(b)
    ensures Antichain(b)
  {
    SameElements(a, b);
    forall i, j | 0 <= i < |b| && 0 <= j < |b| && i != j ensures !Within(b[i], b[j]) {
      assert b[i] in a && b[j] in a;
      var k :| 0 <= k < |a| && a[k] == b[i];
      if b[i] == b[j] {
        if i < j { TwiceCounts(b, i, j); } else { TwiceCounts(b, j, i); }
        OnceOnly(a, k);
      } else {
        var l :| 0 <= l < |a| && a[l] == b[j];
        assert k != l;
      }
    }
  }

  lemma OnceOnly(a: seq<Key>, k: nat)
    requires Antichain(a) && k < |a|
    ensures multiset(a)[a[k]] == 1
  {
    assert a == a[..k] + [a[k]] + a[k + 1..];
    forall i | 0 <= i < |a| && i != k ensures a[i] != a[k] {
      assert !Within(a[i], a[k]);
    }
    assert a[k] !in a[..k] && a[k] !in a[k + 1..];
  }
}
