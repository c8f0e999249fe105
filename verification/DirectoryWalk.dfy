/**
 The scanner's directory walk: an explicit stack with reversed pushes and a visited check when a
 directory is popped, against the recursion it stands for.
 */
module DirectoryWalk {
  import opened Paths

  type Identity = (nat, nat)

  datatype Kind = LinkKind | DirectoryKind | RegularKind | SpecialKind

  /** What `lstat` reports; links include reparse points. */
  datatype Stat = Stat(kind: Kind, device: nat, inode: nat)

  /** A file system at rest: `lstat` and the sorted names of a directory, either of which may fail. */
  datatype FileSystem = FileSystem(lstat: Key -> Option<Stat>, list: Key -> Option<seq<string>>)

  datatype Config = Config(excluded: seq<Key>, crossFilesystems: bool) {
    predicate Excludes(path: Key) {
      exists e :: e in excluded && Within(path, e)
    }
  }

  datatype IssueCode = RootUnreadable | DirectoryUnreadable | EntryUnreadable

  /** Everything the walk has produced: files in order, issues in order, and the tallies. */
  datatype Result = Result(
    files: seq<Key>, issues: seq<(Key, IssueCode)>,
    excluded: nat, links: nat, filesystems: nat, special: nat)

  const NOTHING := Result([], [], 0, 0, 0, 0)

  // ---------- one directory listing ----------

  datatype Class = Excluded | Unreadable | Link | OtherFilesystem | Child | File | Special

  /** The branch taken for one listed path. */
  function Classify(fs: FileSystem, cfg: Config, rootDevice: nat, path: Key): Class {
    if cfg.Excludes(path) then Excluded
    else
      var s := fs.lstat(path);
      if s.None? then Unreadable
      else
        match s.value.kind
        case LinkKind => Link
        case DirectoryKind =>
          if !cfg.crossFilesystems && rootDevice != 0 && s.value.device != 0 && s.value.device != rootDevice
          then OtherFilesystem else Child
        case RegularKind => File
        case SpecialKind => Special
  }

  function Tally(r: Result, c: Class, path: Key): Result {
    match c
    case Excluded => r.(excluded := r.excluded + 1)
    case Unreadable => r.(issues := r.issues + [(path, EntryUnreadable)])
    case Link => r.(links := r.links + 1)
    case OtherFilesystem => r.(filesystems := r.filesystems + 1)
    case Child => r
    case File => r.(files := r.files + [path])
    case Special => r.(special := r.special + 1)
  }

  /** The entries of a directory folded into the result, and its child directories in order. */
  function Entries(fs: FileSystem, cfg: Config, rootDevice: nat, dir: Key, names: seq<string>, r: Result)
    : (Result, seq<Key>)
  {
    if names == [] then (r, [])
    else
      var e := Entries(fs, cfg, rootDevice, dir, names[..|names| - 1], r);
      var path := dir + [names[|names| - 1]];
      var c := Classify(fs, cfg, rootDevice, path);
      (Tally(e.0, c, path), if c == Child then e.1 + [path] else e.1)
  }

  /** Each listed entry is counted exactly once. */
  function Total(r: Result): nat {
    |r.files| + |r.issues| + r.excluded + r.links + r.filesystems + r.special
  }

  lemma {:induction false} EveryEntryIsTallied(fs: FileSystem, cfg: Config, rootDevice: nat, dir: Key,
                                               names: seq<string>, r: Result)
    ensures var (r', children) := Entries(fs, cfg, rootDevice, dir, names, r);
            Total(r') + |children| == Total(r) + |names|
  {
    if names != [] {
      EveryEntryIsTallied(fs, cfg, rootDevice, dir, names[..|names| - 1], r);
    }
  }

  // ---------- the recursion ----------

  /** Directories have non-zero inodes, and their identities come from a finite set; nothing else can
      be listed. */
  ghost predicate Finite(fs: FileSystem, universe: set<Identity>) {
    forall p :: fs.lstat(p).Some? ==>
      if fs.lstat(p).value.kind.DirectoryKind? then
        fs.lstat(p).value.inode != 0 && (fs.lstat(p).value.device, fs.lstat(p).value.inode) in universe
      else fs.list(p).None?
  }

  datatype Walked = Walked(result: Result, visited: set<Identity>)

  lemma Fewer(universe: set<Identity>, visited: set<Identity>, identity: Identity)
    requires identity in universe && identity !in visited
    ensures |universe - (visited + {identity})| < |universe - visited|
  {
    assert universe - (visited + {identity}) == (universe - visited) - {identity};
  }

  lemma NoMore(universe: set<Identity>, visited: set<Identity>, more: set<Identity>)
    requires visited <= more
    ensures |universe - more| <= |universe - visited|
  {
    var rest, now := universe - visited, universe - more;
    assert rest == now + (rest - now);
    assert |rest| == |now| + |rest - now|;
  }

  /** Popping one directory: an unreadable or visited one yields nothing, any other its entries. */
  function Opened(fs: FileSystem, cfg: Config, rootDevice: nat, w: Walked, dir: Key): (Walked, seq<Key>) {
    var s := fs.lstat(dir);
    if s.None? then (w.(result := w.result.(issues := w.result.issues + [(dir, DirectoryUnreadable)])), [])
    else
      var identity := (s.value.device, s.value.inode);
      if identity.1 != 0 && identity in w.visited then (w.(result := w.result.(links := w.result.links + 1)), [])
      else
        var seen := w.visited + {identity};
        var names := fs.list(dir);
        if names.None? then
          (Walked(w.result.(issues := w.result.issues + [(dir, DirectoryUnreadable)]), seen), [])
        else
          var e := Entries(fs, cfg, rootDevice, dir, names.value, w.result);
          (Walked(e.0, seen), e.1)
  }

  lemma OpenedProgress(fs: FileSystem, cfg: Config, rootDevice: nat, universe: set<Identity>, w: Walked, dir: Key)
    requires Finite(fs, universe)
    ensures var o := Opened(fs, cfg, rootDevice, w, dir);
            && w.visited <= o.0.visited
            && |universe - o.0.visited| <= |universe - w.visited|
            && (o.1 == [] || |universe - o.0.visited| < |universe - w.visited|)
  {
    var s := fs.lstat(dir);
    if s.Some? {
      var identity := (s.value.device, s.value.inode);
      NoMore(universe, w.visited, w.visited + {identity});
      if s.value.kind.DirectoryKind? && identity !in w.visited {
        Fewer(universe, w.visited, identity);
      }
    }
    hide Entries;
  }

  /** Visit directories in order: files of each first, then its subdirectories recursively, with
      the visited set threaded through. */
  ghost function Visit(fs: FileSystem, cfg: Config, rootDevice: nat, universe: set<Identity>,
                       dirs: seq<Key>, w: Walked): (r: Walked)
    requires Finite(fs, universe)
    ensures w.visited <= r.visited
    decreases |universe - w.visited|, |dirs|
  {
    if dirs == [] then w
    else
      OpenedProgress(fs, cfg, rootDevice, universe, w, dirs[0]);
      var o := Opened(fs, cfg, rootDevice, w, dirs[0]);
      var inner := Visit(fs, cfg, rootDevice, universe, o.1, o.0);
      NoMore(universe, o.0.visited, inner.visited);
      Visit(fs, cfg, rootDevice, universe, dirs[1..], inner)
  }

  lemma {:induction false} VisitInTurn(fs: FileSystem, cfg: Config, rootDevice: nat, universe: set<Identity>,
                                       a: seq<Key>, b: seq<Key>, w: Walked)
    requires Finite(fs, universe)
    ensures Visit(fs, cfg, rootDevice, universe, a + b, w)
            == Visit(fs, cfg, rootDevice, universe, b, Visit(fs, cfg, rootDevice, universe, a, w))
    decreases |universe - w.visited|, |a|
  {
    if a == [] {
      assert a + b == b;
    } else {
      assert (a + b)[1..] == a[1..] + b && (a + b)[0] == a[0];
      OpenedProgress(fs, cfg, rootDevice, universe, w, a[0]);
      hide Opened;
      var o := Opened(fs, cfg, rootDevice, w, a[0]);
      var inner := Visit(fs, cfg, rootDevice, universe, o.1, o.0);
      NoMore(universe, o.0.visited, inner.visited);
      VisitInTurn(fs, cfg, rootDevice, universe, a[1..], b, inner);
    }
  }

  /** How many directories a visit lists, and how many entries those listings have. */
  datatype Effort = Effort(directories: nat, entries: nat)

  ghost function EffortOf(fs: FileSystem, cfg: Config, rootDevice: nat, universe: set<Identity>,
                          dirs: seq<Key>, w: Walked): Effort
    requires Finite(fs, universe)
    decreases |universe - w.visited|, |dirs|
  {
    if dirs == [] then Effort(0, 0)
    else
      OpenedProgress(fs, cfg, rootDevice, universe, w, dirs[0]);
      var o := Opened(fs, cfg, rootDevice, w, dirs[0]);
      var inner := Visit(fs, cfg, rootDevice, universe, o.1, o.0);
      NoMore(universe, o.0.visited, inner.visited);
      var a := EffortOf(fs, cfg, rootDevice, universe, o.1, o.0);
      var b := EffortOf(fs, cfg, rootDevice, universe, dirs[1..], inner);
      if Lists(fs, w, dirs[0]) then
        Effort(1 + a.directories + b.directories, |fs.list(dirs[0]).value| + a.entries + b.entries)
      else Effort(a.directories + b.directories, a.entries + b.entries)
  }

  /** The directory is readable and not visited yet. */
  predicate Lists(fs: FileSystem, w: Walked, dir: Key) {
    && fs.lstat(dir).Some? && fs.list(dir).Some?
    && !(fs.lstat(dir).value.inode != 0 && (fs.lstat(dir).value.device, fs.lstat(dir).value.inode) in w.visited)
  }

  lemma OpenedTally(fs: FileSystem, cfg: Config, rootDevice: nat, w: Walked, dir: Key)
    ensures var o := Opened(fs, cfg, rootDevice, w, dir);
            if Lists(fs, w, dir) then Total(o.0.result) + |o.1| == Total(w.result) + |fs.list(dir).value|
            else Total(o.0.result) == Total(w.result) + 1 && o.1 == []
  {
    if Lists(fs, w, dir) {
      EveryEntryIsTallied(fs, cfg, rootDevice, dir, fs.list(dir).value, w.result);
    }
    hide Entries;
  }

  /** Nothing is lost or counted twice in a whole walk: the requested directories and all entries of
      all listings end up either tallied or listed themselves. */
  lemma {:induction false} WholeWalkIsTallied(fs: FileSystem, cfg: Config, rootDevice: nat, universe: set<Identity>,
                                              dirs: seq<Key>, w: Walked)
    requires Finite(fs, universe)
    ensures var effort := EffortOf(fs, cfg, rootDevice, universe, dirs, w);
            Total(Visit(fs, cfg, rootDevice, universe, dirs, w).result) + effort.directories
            == Total(w.result) + |dirs| + effort.entries
    decreases |universe - w.visited|, |dirs|
  {
    if dirs != [] {
      OpenedProgress(fs, cfg, rootDevice, universe, w, dirs[0]);
      OpenedTally(fs, cfg, rootDevice, w, dirs[0]);
      hide Opened;
      hide Total;
      hide Lists;
      var o := Opened(fs, cfg, rootDevice, w, dirs[0]);
      var inner := Visit(fs, cfg, rootDevice, universe, o.1, o.0);
      NoMore(universe, o.0.visited, inner.visited);
      WholeWalkIsTallied(fs, cfg, rootDevice, universe, o.1, o.0);
      WholeWalkIsTallied(fs, cfg, rootDevice, universe, dirs[1..], inner);
    }
  }

  // ---------- the loop ----------

  function Reverse(s: seq<Key>): (r: seq<Key>)
    ensures |r| == |s| && forall i :: 0 <= i < |s| ==> r[i] == s[|s| - 1 - i]
  {
    seq(|s|, i requires 0 <= i < |s| => s[|s| - 1 - i])
  }

  lemma ReversedPush(stack: seq<Key>, children: seq<Key>)
    ensures Reverse(stack + Reverse(children)) == children + Reverse(stack)
  {
  }

  /** One step of the recursion on the reversed stack. */
  lemma VisitTop(fs: FileSystem, cfg: Config, rootDevice: nat, universe: set<Identity>, dir: Key,
                 rest: seq<Key>, w: Walked)
    requires Finite(fs, universe)
    ensures var o := Opened(fs, cfg, rootDevice, w, dir);
            Visit(fs, cfg, rootDevice, universe, [dir] + rest, w)
            == Visit(fs, cfg, rootDevice, universe, o.1 + rest, o.0)
  {
    hide Opened;
    assert ([dir] + rest)[1..] == rest;
    var o := Opened(fs, cfg, rootDevice, w, dir);
    VisitInTurn(fs, cfg, rootDevice, universe, o.1, rest, o.0);
  }

  /** The walk below a root directory equals the recursion from it, and terminates on every finite
      set of directory identities. */
  method WalkDirectories(fs: FileSystem, cfg: Config, rootDevice: nat, ghost universe: set<Identity>, root: Key)
    returns (r: Result)
    requires Finite(fs, universe)
    ensures r == Visit(fs, cfg, rootDevice, universe, [root], Walked(NOTHING, {})).result
  {
    hide Finite;
    hide Entries;
    r := NOTHING;
    var visited: set<Identity> := {};
    var stack := [root];
    ghost var goal := Visit(fs, cfg, rootDevice, universe, [root], Walked(NOTHING, {}));
    assert Reverse(stack) == [root];
    while stack != []
      invariant Visit(fs, cfg, rootDevice, universe, Reverse(stack), Walked(r, visited)) == goal
      decreases |universe - visited|, |stack|
    {
      var directory := stack[|stack| - 1];
      var rest := stack[..|stack| - 1];
      assert Reverse(stack) == [directory] + Reverse(rest);
      VisitTop(fs, cfg, rootDevice, universe, directory, Reverse(rest), Walked(r, visited));
      OpenedProgress(fs, cfg, rootDevice, universe, Walked(r, visited), directory);
      hide *;
      var children;
      r, visited, children := PopDirectory(fs, cfg, rootDevice, directory, r, visited);
      ReversedPush(rest, children);
      stack := rest + Reverse(children);
    }
  }

  /** One iteration: the visited check, the listing and its entries. */
  method PopDirectory(fs: FileSystem, cfg: Config, rootDevice: nat, directory: Key, before: Result, seen: set<Identity>)
    returns (r: Result, visited: set<Identity>, children: seq<Key>)
    ensures (Walked(r, visited), children) == Opened(fs, cfg, rootDevice, Walked(before, seen), directory)
  {
    r, visited, children := before, seen, [];
    var metadata := fs.lstat(directory);
    if metadata.None? {
      r := r.(issues := r.issues + [(directory, DirectoryUnreadable)]);
      return;
    }
    var identity := (metadata.value.device, metadata.value.inode);
    if identity.1 != 0 && identity in visited {
      r := r.(links := r.links + 1);
      return;
    }
    visited := visited + {identity};
    var names := fs.list(directory);
    if names.None? {
      r := r.(issues := r.issues + [(directory, DirectoryUnreadable)]);
      return;
    }
    r, children := ReadEntries(fs, cfg, rootDevice, directory, names.value, r);
  }

  /** The inner loop over the sorted entries of one directory. */
  method ReadEntries(fs: FileSystem, cfg: Config, rootDevice: nat, dir: Key, names: seq<string>, start: Result)
    returns (r: Result, children: seq<Key>)
    ensures (r, children) == Entries(fs, cfg, rootDevice, dir, names, start)
  {
    r, children := start, [];
    for k := 0 to |names|
      invariant (r, children) == Entries(fs, cfg, rootDevice, dir, names[..k], start)
    {
      assert names[..k + 1][..k] == names[..k];
      var path := dir + [names[k]];
      if cfg.Excludes(path) {
        r := r.(excluded := r.excluded + 1);
        continue;
      }
      var metadata := fs.lstat(path);
      if metadata.None? {
        r := r.(issues := r.issues + [(path, EntryUnreadable)]);
        continue;
      }
      match metadata.value.kind
      case LinkKind => r := r.(links := r.links + 1);
      case DirectoryKind =>
        var device := metadata.value.device;
        if !cfg.crossFilesystems && rootDevice != 0 && device != 0 && device != rootDevice {
          r := r.(filesystems := r.filesystems + 1);
        } else {
          children := children + [path];
        }
      case RegularKind => r := r.(files := r.files + [path]);
      case SpecialKind => r := r.(special := r.special + 1);
    }
    assert names[..|names|] == names;
  }

  /** The whole walk of one requested root. */
  ghost function WalkRoot(fs: FileSystem, cfg: Config, universe: set<Identity>, root: Key): Result
    requires Finite(fs, universe)
  {
    if cfg.Excludes(root) then NOTHING.(excluded := 1)
    else
      var s := fs.lstat(root);
      if s.None? then NOTHING.(issues := [(root, RootUnreadable)])
      else
        match s.value.kind
        case LinkKind => NOTHING.(links := 1)
        case RegularKind => NOTHING.(files := [root])
        case SpecialKind => NOTHING.(special := 1)
        case DirectoryKind => Visit(fs, cfg, s.value.device, universe, [root], Walked(NOTHING, {})).result
  }

  method IterRegularFiles(fs: FileSystem, cfg: Config, ghost universe: set<Identity>, root: Key) returns (r: Result)
    requires Finite(fs, universe)
    ensures r == WalkRoot(fs, cfg, universe, root)
  {
    r := NOTHING;
    if cfg.Excludes(root) {
      return r.(excluded := 1);
    }
    var metadata := fs.lstat(root);
    if metadata.None? {
      return r.(issues := [(root, RootUnreadable)]);
    }
    match metadata.value.kind
    case LinkKind => return r.(links := 1);
    case RegularKind => return r.(files := [root]);
    case SpecialKind => return r.(special := 1);
    case DirectoryKind => r := WalkDirectories(fs, cfg, metadata.value.device, universe, root);
  }
}
