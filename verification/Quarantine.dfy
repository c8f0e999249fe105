/**
 Encrypted quarantine and restore over a disk that other processes may change at every point where
 the code looks at the source path. A run is the list of disks after every write, each with the
 party that made it, so a crash at any moment leaves one of them.
 */
module Quarantine {
  import opened Paths
  import Streaming

  type Bytes = Streaming.Bytes
  type EntryId = nat

  const MAX_METADATA_BYTES: nat := 256 * 1024
  const MAX_RESTORE_RECORDS: nat := 100

  // ---------- ideal cryptography ----------

  /** The authenticated part of the metadata: the fields bound into both encryptions. */
  datatype Projection = Projection(
    id: EntryId, originalPath: Key, sha256: int, size: nat, mode: nat, modifiedNs: int, createdAt: int,
    matches: seq<string>, zba: int)

  datatype Envelope = Envelope(salt: int, wrapNonce: int, wrappedKey: int, contentNonce: int)

  datatype EntryState = CopyReady | CopyOnly | Quarantined | Restored

  datatype Metadata = Metadata(
    id: EntryId, state: EntryState, originalPath: Key, sha256: int, size: nat, mode: nat, modifiedNs: int,
    createdAt: int, quarantinedAt: Option<int>, history: seq<(int, Key)>, matches: seq<string>, zba: int,
    vault: Envelope, contentTag: int, mac: int)

  /** The stream cipher works byte by byte at an offset and the tag covers the whole ciphertext and
      the authenticated data; `encoded` is the byte size of a metadata file. */
  datatype Crypto = Crypto(
    digest: Bytes -> int,
    cipher: (int, int, nat, bv8) -> bv8,
    decipher: (int, int, nat, bv8) -> bv8,
    tag: (int, int, Projection, Bytes) -> int,
    wrap: (int, EntryId, int, int, Projection, int) -> int,
    unwrap: (int, EntryId, int, int, Projection, int) -> Option<int>,
    mac: (int, Metadata) -> int,
    encoded: Metadata -> nat)

  /** Decryption undoes encryption under the same key, nonce, offset and authenticated data. */
  ghost predicate Ideal(c: Crypto) {
    && (forall k, n, i, b :: c.decipher(k, n, i, c.cipher(k, n, i, b)) == b)
    && (forall d, id, s, n, a, k :: c.unwrap(d, id, s, n, a, c.wrap(d, id, s, n, a, k)) == Some(k))
  }

  function Encipher(c: Crypto, key: int, nonce: int, from: nat, plain: Bytes): Bytes {
    seq(|plain|, i requires 0 <= i < |plain| => c.cipher(key, nonce, from + i, plain[i]))
  }

  function Decipher(c: Crypto, key: int, nonce: int, from: nat, sealed: Bytes): Bytes {
    seq(|sealed|, i requires 0 <= i < |sealed| => c.decipher(key, nonce, from + i, sealed[i]))
  }

  lemma EncipherGrows(c: Crypto, key: int, nonce: int, a: Bytes, b: Bytes)
    ensures Encipher(c, key, nonce, 0, a + b) == Encipher(c, key, nonce, 0, a) + Encipher(c, key, nonce, |a|, b)
  {
  }

  lemma DecipherGrows(c: Crypto, key: int, nonce: int, a: Bytes, b: Bytes)
    ensures Decipher(c, key, nonce, 0, a + b) == Decipher(c, key, nonce, 0, a) + Decipher(c, key, nonce, |a|, b)
  {
  }

  function Project(m: Metadata): Projection {
    Projection(m.id, m.originalPath, m.sha256, m.size, m.mode, m.modifiedNs, m.createdAt, m.matches, m.zba)
  }

  function Sign(c: Crypto, device: int, m: Metadata): Metadata {
    m.(mac := c.mac(device, m.(mac := 0)))
  }

  predicate Verifies(c: Crypto, device: int, m: Metadata) {
    m.mac == c.mac(device, m.(mac := 0))
  }

  // ---------- the disk ----------

  datatype File = File(content: Bytes, device: nat, inode: nat, modifiedNs: int, mode: nat, regular: bool)

  datatype Entry = Entry(content: Bytes, metadata: Metadata)

  /** Published entries only; unfinished temporary directories are never read. */
  datatype Disk = Disk(files: map<Key, File>, entries: map<EntryId, Entry>, device: Option<int>)

  /** `_same_snapshot` */
  predicate SameSnapshot(a: File, b: File) {
    && a.device == b.device && (a.inode == 0 || b.inode == 0 || a.inode == b.inode)
    && |a.content| == |b.content| && a.modifiedNs == b.modifiedNs
  }

  function ContentKey(c: Crypto, device: int, m: Metadata): Option<int> {
    c.unwrap(device, m.id, m.vault.salt, m.vault.wrapNonce, Project(m), m.vault.wrappedKey)
  }

  /** What decrypting a published entry yields, if it authenticates. */
  function Decrypt(c: Crypto, device: int, e: Entry): Option<Bytes> {
    var m := e.metadata;
    var key := ContentKey(c, device, m);
    if |e.content| != m.size || key.None? then None
    else if c.tag(key.value, m.vault.contentNonce, Project(m), e.content) != m.contentTag then None
    else Some(Decipher(c, key.value, m.vault.contentNonce, 0, e.content))
  }

  /** The entry is authentic and holds exactly these bytes, which have the recorded digest. */
  ghost predicate Holds(c: Crypto, disk: Disk, id: EntryId, bytes: Bytes) {
    && id in disk.entries && disk.device.Some?
    && var e := disk.entries[id];
       && e.metadata.id == id && Verifies(c, disk.device.value, e.metadata)
       && Decrypt(c, disk.device.value, e) == Some(bytes)
       && c.digest(bytes) == e.metadata.sha256 && |bytes| == e.metadata.size
  }

  /** What holding an entry comes to, field by field: the metadata carries its own authentication code,
      and the key it wraps, bound to all nine fields of the projection, yields the tag over the stored
      content and, byte by byte, the bytes, whose size and digest are on record. */
  lemma HoldsMeans(c: Crypto, disk: Disk, id: EntryId, bytes: Bytes)
    ensures Holds(c, disk, id, bytes) <==>
            && id in disk.entries && disk.device.Some?
            && var m, content, device := disk.entries[id].metadata, disk.entries[id].content, disk.device.value;
               var bound := Projection(m.id, m.originalPath, m.sha256, m.size, m.mode, m.modifiedNs, m.createdAt,
                                       m.matches, m.zba);
               var key := c.unwrap(device, id, m.vault.salt, m.vault.wrapNonce, bound, m.vault.wrappedKey);
               && m.id == id && m.mac == c.mac(device, m.(mac := 0))
               && key.Some? && c.tag(key.value, m.vault.contentNonce, bound, content) == m.contentTag
               && |bytes| == |content| == m.size && c.digest(bytes) == m.sha256
               && forall i :: 0 <= i < |bytes| ==>
                    bytes[i] == c.decipher(key.value, m.vault.contentNonce, i, content[i])
  {
    if id in disk.entries && disk.device.Some? {
      var e := disk.entries[id];
      var key := ContentKey(c, disk.device.value, e.metadata);
      if key.Some? && |bytes| == |e.content| {
        var plain := Decipher(c, key.value, e.metadata.vault.contentNonce, 0, e.content);
        assert plain == bytes <==> forall i :: 0 <= i < |bytes| ==> bytes[i] == plain[i];
      }
    }
  }

  ghost predicate Recoverable(c: Crypto, disk: Disk, id: EntryId, sha256: int) {
    exists bytes :: Holds(c, disk, id, bytes) && c.digest(bytes) == sha256
  }

  /** Holding an entry depends on the entry and the device key only. */
  lemma HoldsWhateverTheFiles(c: Crypto, a: Disk, b: Disk, id: EntryId, bytes: Bytes)
    requires Holds(c, a, id, bytes) && id in b.entries && b.entries[id] == a.entries[id] && b.device == a.device
    ensures Holds(c, b, id, bytes)
  {
  }

  lemma HoldsOnce(c: Crypto, disk: Disk, id: EntryId, a: Bytes, b: Bytes)
    requires Holds(c, disk, id, a) && Holds(c, disk, id, b)
    ensures a == b
  {
  }

  /** A rewrite of the fields outside the projection. */
  function Rewrite(c: Crypto, device: int, m: Metadata, state: EntryState, at: Option<int>,
                   history: seq<(int, Key)>): Metadata
  {
    Sign(c, device, m.(state := state, quarantinedAt := at, history := history))
  }

  /** The disk after such a rewrite of one entry. */
  function Rewritten(c: Crypto, disk: Disk, id: EntryId, state: EntryState, at: Option<int>,
                     history: seq<(int, Key)>): Disk
    requires id in disk.entries && disk.device.Some?
  {
    var e := disk.entries[id];
    var m := Rewrite(c, disk.device.value, e.metadata, state, at, history);
    disk.(entries := disk.entries[id := e.(metadata := m)])
  }

  /** Every metadata rewrite keeps the authenticated projection and the bytes of the entry. */
  lemma RewriteKeepsContent(c: Crypto, disk: Disk, id: EntryId, bytes: Bytes, state: EntryState, at: Option<int>,
                            history: seq<(int, Key)>)
    requires Holds(c, disk, id, bytes)
    ensures var n := Rewritten(c, disk, id, state, at, history);
            Project(n.entries[id].metadata) == Project(disk.entries[id].metadata) && Holds(c, n, id, bytes)
  {
  }

  /** The same over any number of rewrites of any entry. */
  datatype Revision = Revision(state: EntryState, at: Option<int>, history: seq<(int, Key)>)

  function Revise(c: Crypto, device: int, m: Metadata, revisions: seq<Revision>): Metadata {
    if revisions == [] then m
    else
      var last := revisions[|revisions| - 1];
      Rewrite(c, device, Revise(c, device, m, revisions[..|revisions| - 1]), last.state, last.at, last.history)
  }

  lemma {:induction false} RevisionsKeepContent(c: Crypto, disk: Disk, id: EntryId, bytes: Bytes,
                                                revisions: seq<Revision>)
    requires Holds(c, disk, id, bytes)
    ensures var e := disk.entries[id];
            var m := Revise(c, disk.device.value, e.metadata, revisions);
            Holds(c, disk.(entries := disk.entries[id := e.(metadata := m)]), id, bytes)
  {
    var e := disk.entries[id];
    if revisions == [] {
      assert disk.entries[id := e] == disk.entries;
    } else {
      var front, last := revisions[..|revisions| - 1], revisions[|revisions| - 1];
      RevisionsKeepContent(c, disk, id, bytes, front);
      var m := Revise(c, disk.device.value, e.metadata, front);
      var before := disk.(entries := disk.entries[id := e.(metadata := m)]);
      RewriteKeepsContent(c, before, id, bytes, last.state, last.at, last.history);
      var n := Revise(c, disk.device.value, e.metadata, revisions);
      assert before.entries[id := e.(metadata := n)] == disk.entries[id := e.(metadata := n)];
    }
  }

  // ---------- a run ----------

  datatype Party = Self | Other

  /** The disk after a write, and who wrote. */
  datatype Moment = Moment(disk: Disk, who: Party)

  function Last(start: Disk, moments: seq<Moment>): Disk {
    if moments == [] then start else moments[|moments| - 1].disk
  }

  function Before(start: Disk, moments: seq<Moment>, i: nat): Disk
    requires i < |moments|
  {
    if i == 0 then start else moments[i - 1].disk
  }

  /** This process takes the path away at moment `i`. */
  predicate Removes(start: Disk, moments: seq<Moment>, i: nat, path: Key)
    requires i < |moments|
  {
    moments[i].who == Self && path in Before(start, moments, i).files && path !in moments[i].disk.files
  }

  function Placed(disk: Disk, path: Key, file: Option<File>): Disk {
    disk.(files := if file.Some? then disk.files[path := file.value] else disk.files - {path})
  }

  // ---------- quarantine ----------

  datatype Finding = Finding(path: Key, sha256: int, size: nat, matches: seq<string>)

  /** Fresh random values and times. */
  datatype Draw = Draw(id: EntryId, createdAt: int, zba: int, deviceKey: int, contentKey: int,
                       salt: int, wrapNonce: int, contentNonce: int, finishedAt: int)

  /** What other processes make of the source path where the code looks at it, what reading the
      open file yields and how it looks afterwards, and which operations the system refuses. */
  datatype Outside = Outside(
    atOpen: Option<File>, chunks: seq<Bytes>, afterRead: File, copyFails: bool,
    atRecheck: Option<File>, atUnlink: Option<File>, unlinkFails: bool, recordFails: bool)

  /** An undisturbed source. */
  predicate Quiet(o: Outside, f: File) {
    && o.atOpen == Some(f) && o.afterRead == f && o.atRecheck == Some(f) && o.atUnlink == Some(f)
    && Streaming.Flatten(o.chunks) == f.content
  }

  predicate AsScanned(c: Crypto, f: Finding, source: File) {
    source.regular && f.size == |source.content| && f.sha256 == c.digest(source.content)
  }

  /** Nothing stands in the way of quarantining the file as it was scanned. */
  predicate Unhindered(c: Crypto, disk: Disk, f: Finding, w: Draw, o: Outside) {
    && f.path in disk.files && Quiet(o, disk.files[f.path]) && AsScanned(c, f, disk.files[f.path])
    && w.id !in disk.entries && !o.copyFails && !o.unlinkFails && !o.recordFails
  }

  /** `Aborted` is an error that escapes while the outcome is being recorded. */
  datatype QuarantineOutcome = Moved | Partial | Failed | Aborted

  function NewMetadata(f: Finding, w: Draw, source: File): Metadata {
    Metadata(w.id, CopyReady, f.path, f.sha256, |source.content|, source.mode, source.modifiedNs, w.createdAt,
             None, [], f.matches, w.zba, Envelope(0, 0, 0, 0), 0, 0)
  }

  /** The entry that is published for this content. */
  function SealedEntry(c: Crypto, device: int, f: Finding, w: Draw, source: File, plain: Bytes): Entry {
    var aad := Project(NewMetadata(f, w, source));
    var sealed := Encipher(c, w.contentKey, w.contentNonce, 0, plain);
    var wrapped := c.wrap(device, w.id, w.salt, w.wrapNonce, aad, w.contentKey);
    Entry(sealed, Sign(c, device, NewMetadata(f, w, source).(
      vault := Envelope(w.salt, w.wrapNonce, wrapped, w.contentNonce),
      contentTag := c.tag(w.contentKey, w.contentNonce, aad, sealed))))
  }

  /** The device key exists from the first quarantine on. */
  function Keyed(disk: Disk, w: Draw): Disk {
    if disk.device.Some? then disk else disk.(device := Some(w.deviceKey))
  }

  /** The file found under the path is the one inspected, did not change while it was read, and
      has the scanned digest. */
  predicate CopyIsSound(c: Crypto, f: Finding, o: Outside, source: File) {
    && o.atOpen.Some? && o.atOpen.value.regular && SameSnapshot(source, o.atOpen.value)
    && SameSnapshot(o.atOpen.value, o.afterRead)
    && |Streaming.Flatten(o.chunks)| == |o.atOpen.value.content|
    && c.digest(Streaming.Flatten(o.chunks)) == f.sha256
  }

  /** Up to the published copy: the disks, and the inspected source if a copy was published. */
  function PublishRun(c: Crypto, disk: Disk, f: Finding, w: Draw, o: Outside): (seq<Moment>, Option<File>) {
    if f.path !in disk.files || !disk.files[f.path].regular || |disk.files[f.path].content| != f.size then ([], None)
    else
      var source := disk.files[f.path];
      var keyed := Keyed(disk, w);
      var seen := Placed(keyed, f.path, o.atOpen);
      var looked := [Moment(keyed, Self), Moment(seen, Other)];
      if !CopyIsSound(c, f, o, source) || o.copyFails || w.id in seen.entries then (looked, None)
      else
        var entry := SealedEntry(c, keyed.device.value, f, w, source, Streaming.Flatten(o.chunks));
        (looked + [Moment(seen.(entries := seen.entries[w.id := entry]), Self)], Some(source))
  }

  /** The last metadata rewrite, which may fail. */
  function RecordRun(c: Crypto, disk: Disk, w: Draw, state: EntryState, at: Option<int>, fails: bool,
                     outcome: QuarantineOutcome): (seq<Moment>, QuarantineOutcome)
    requires w.id in disk.entries && disk.device.Some?
  {
    if fails then ([], Aborted)
    else
      ([Moment(Rewritten(c, disk, w.id, state, at, disk.entries[w.id].metadata.history), Self)], outcome)
  }

  /** The second look and the removal. */
  function FrontRun(disk: Disk, f: Finding, o: Outside, source: File): (r: seq<Moment>)
    ensures r != [] && Last(disk, r).entries == disk.entries && Last(disk, r).device == disk.device
  {
    var a := Placed(disk, f.path, o.atRecheck);
    if !LooksSame(o, source) then [Moment(a, Other)]
    else
      var b := Placed(a, f.path, o.atUnlink);
      if o.unlinkFails || o.atUnlink.None? then [Moment(a, Other), Moment(b, Other)]
      else [Moment(a, Other), Moment(b, Other), Moment(b.(files := b.files - {f.path}), Self)]
  }

  predicate LooksSame(o: Outside, source: File) {
    o.atRecheck.Some? && SameSnapshot(source, o.atRecheck.value)
  }

  /** The source has been removed. */
  predicate Removed(o: Outside, source: File) {
    LooksSame(o, source) && !o.unlinkFails && o.atUnlink.Some?
  }

  /** From the published copy on: look again, remove the source, record the outcome. */
  function RemoveRun(c: Crypto, disk: Disk, f: Finding, w: Draw, o: Outside, source: File)
    : (seq<Moment>, QuarantineOutcome)
    requires w.id in disk.entries && disk.device.Some?
  {
    var front := FrontRun(disk, f, o, source);
    var r :=
      if Removed(o, source) then
        RecordRun(c, Last(disk, front), w, Quarantined, Some(w.finishedAt), o.recordFails, Moved)
      else RecordRun(c, Last(disk, front), w, CopyOnly, None, o.recordFails, Partial);
    (front + r.0, r.1)
  }

  /** `quarantine_finding` */
  function QuarantineRun(c: Crypto, disk: Disk, f: Finding, w: Draw, o: Outside): (seq<Moment>, QuarantineOutcome) {
    var p := PublishRun(c, disk, f, w, o);
    if p.1.None? then (p.0, Failed)
    else
      var r := RemoveRun(c, Last(disk, p.0), f, w, o, p.1.value);
      (p.0 + r.0, r.1)
  }

  /** A freshly sealed and signed entry holds the sealed bytes. */
  lemma SealedHolds(c: Crypto, device: int, f: Finding, w: Draw, source: File, plain: Bytes, disk: Disk)
    requires Ideal(c) && disk.device == Some(device)
    requires c.digest(plain) == f.sha256 && |plain| == |source.content|
    ensures var e := SealedEntry(c, device, f, w, source, plain);
            Holds(c, disk.(entries := disk.entries[w.id := e]), w.id, plain)
  {
    DecipherUndoes(c, w.contentKey, w.contentNonce, plain);
    hide Encipher;
    hide Decipher;
  }

  lemma SealedProjects(c: Crypto, device: int, f: Finding, w: Draw, source: File, plain: Bytes)
    ensures Project(SealedEntry(c, device, f, w, source, plain).metadata) == Project(NewMetadata(f, w, source))
  {
  }

  lemma DecipherUndoes(c: Crypto, key: int, nonce: int, plain: Bytes)
    requires Ideal(c)
    ensures Decipher(c, key, nonce, 0, Encipher(c, key, nonce, 0, plain)) == plain
  {
    var sealed := Encipher(c, key, nonce, 0, plain);
    forall i | 0 <= i < |plain| ensures Decipher(c, key, nonce, 0, sealed)[i] == plain[i] {
      assert c.decipher(key, nonce, i, c.cipher(key, nonce, i, plain[i])) == plain[i];
    }
  }

  /** A copy is published only if it holds the bytes read, which have the scanned digest; until then
      this process touches no file and no other entry. */
  lemma PublishedHolds(c: Crypto, disk: Disk, f: Finding, w: Draw, o: Outside)
    requires Ideal(c)
    ensures var p := PublishRun(c, disk, f, w, o);
            var bytes := Streaming.Flatten(o.chunks);
            && (forall i :: 0 <= i < |p.0| && p.0[i].who == Self ==> p.0[i].disk.files == Before(disk, p.0, i).files)
            && (p.1.Some? ==>
                  w.id !in disk.entries && Holds(c, Last(disk, p.0), w.id, bytes) && c.digest(bytes) == f.sha256
                  && f.path in disk.files && p.1 == Some(disk.files[f.path])
                  && Last(disk, p.0).entries - {w.id} == disk.entries
                  && Project(Last(disk, p.0).entries[w.id].metadata) == Project(NewMetadata(f, w, p.1.value)))
            && (p.1.None? ==> Last(disk, p.0).entries == disk.entries)
  {
    var p := PublishRun(c, disk, f, w, o);
    if p.1.Some? {
      var keyed := Keyed(disk, w);
      SealedHolds(c, keyed.device.value, f, w, p.1.value, Streaming.Flatten(o.chunks), Placed(keyed, f.path, o.atOpen));
      var n := Last(disk, p.0);
      assert n.entries - {w.id} == disk.entries;
      assert n.entries[w.id] == SealedEntry(c, keyed.device.value, f, w, p.1.value, Streaming.Flatten(o.chunks));
      SealedProjects(c, keyed.device.value, f, w, p.1.value, Streaming.Flatten(o.chunks));
    }
    hide Project;
    hide NewMetadata;
    hide Holds;
    hide Ideal;
    hide SealedEntry;
    hide Streaming.Flatten;
  }

  lemma RecordHolds(c: Crypto, disk: Disk, w: Draw, state: EntryState, at: Option<int>, fails: bool,
                    outcome: QuarantineOutcome, bytes: Bytes)
    requires Holds(c, disk, w.id, bytes)
    ensures var r := RecordRun(c, disk, w, state, at, fails, outcome);
            && (forall t :: t in r.0 ==> Holds(c, t.disk, w.id, bytes) && t.disk.files == disk.files && t.who == Self)
            && (r.1 != Aborted ==> r.1 == outcome && Last(disk, r.0).entries[w.id].metadata.state == state)
            && Last(disk, r.0).files == disk.files && Last(disk, r.0).entries - {w.id} == disk.entries - {w.id}
  {
    if !fails {
      RewriteKeepsContent(c, disk, w.id, bytes, state, at, disk.entries[w.id].metadata.history);
    }
    hide Holds;
    hide Sign;
  }

  /** From its publication on the copy holds its bytes in every state. */
  lemma RemoveHolds(c: Crypto, disk: Disk, f: Finding, w: Draw, o: Outside, source: File, bytes: Bytes)
    requires Holds(c, disk, w.id, bytes)
    ensures var r := RemoveRun(c, disk, f, w, o, source);
            && (forall t :: t in r.0 ==> Holds(c, t.disk, w.id, bytes))
            && r.0 != [] && r.1 != Failed && Last(disk, r.0).entries - {w.id} == disk.entries - {w.id}
  {
    var front := FrontRun(disk, f, o, source);
    var last := Last(disk, front);
    FrontKeeps(disk, f, o, source);
    hide FrontRun;
    HoldsWhateverTheFiles(c, disk, last, w.id, bytes);
    forall t | t in front ensures Holds(c, t.disk, w.id, bytes) {
      HoldsWhateverTheFiles(c, disk, t.disk, w.id, bytes);
    }
    RecordHolds(c, last, w, CopyOnly, None, o.recordFails, Partial, bytes);
    RecordHolds(c, last, w, Quarantined, Some(w.finishedAt), o.recordFails, Moved, bytes);
    hide Holds;
    hide RecordRun;
    hide Removed;
  }

  lemma FrontKeeps(disk: Disk, f: Finding, o: Outside, source: File)
    ensures forall t :: t in FrontRun(disk, f, o, source) ==>
              t.disk.entries == disk.entries && t.disk.device == disk.device && SameElsewhere(disk, t.disk, f.path)
    ensures Removed(o, source) ==> f.path !in Last(disk, FrontRun(disk, f, o, source)).files
  {
    hide SameSnapshot;
  }

  /** What the outcome says about the source and the entry. */
  lemma RemoveReports(c: Crypto, disk: Disk, f: Finding, w: Draw, o: Outside, source: File)
    requires w.id in disk.entries && disk.device.Some?
    ensures var r := RemoveRun(c, disk, f, w, o, source);
            var n := Last(disk, r.0);
            && w.id in n.entries && n.device == disk.device
            && Project(n.entries[w.id].metadata) == Project(disk.entries[w.id].metadata)
            && (r.1 == Moved ==> Removed(o, source) && f.path !in n.files
                                 && n.entries[w.id].metadata.state == Quarantined)
            && (r.1 == Partial ==> n.entries[w.id].metadata.state == CopyOnly)
  {
    FrontKeeps(disk, f, o, source);
    hide FrontRun;
    hide Removed;
  }

  /** Quarantine never loses content. In every run, whatever other processes do to the source and
      wherever a crash cuts it off, from the moment on at which this process has removed the source
      a published entry decrypts to bytes with the scanned digest. */
  lemma RemovalIsSafe(c: Crypto, disk: Disk, f: Finding, w: Draw, o: Outside)
    requires Ideal(c)
    ensures var all := QuarantineRun(c, disk, f, w, o).0;
            forall i, j :: 0 <= i <= j < |all| && Removes(disk, all, i, f.path) ==>
              Recoverable(c, all[j].disk, w.id, f.sha256)
  {
    var p := PublishRun(c, disk, f, w, o);
    PublishedHolds(c, disk, f, w, o);
    hide PublishRun;
    hide Holds;
    hide Ideal;
    hide Removes;
    hide Recoverable;
    if p.1.Some? {
      var published := Last(disk, p.0);
      var bytes := Streaming.Flatten(o.chunks);
      EntryIsThere(c, published, w.id, bytes);
      var r := RemoveRun(c, published, f, w, o, p.1.value);
      RemoveHolds(c, published, f, w, o, p.1.value, bytes);
      hide RemoveRun;
      forall t | t in r.0 ensures Recoverable(c, t.disk, w.id, f.sha256) {
        HeldIsRecoverable(c, t.disk, w.id, bytes);
      }
      SafeInTurn(c, disk, p.0, r.0, f.path, w.id, f.sha256);
    } else {
      assert p.0 + [] == p.0;
      SafeInTurn(c, disk, p.0, [], f.path, w.id, f.sha256);
    }
  }

  lemma HeldIsRecoverable(c: Crypto, disk: Disk, id: EntryId, bytes: Bytes)
    requires Holds(c, disk, id, bytes)
    ensures Recoverable(c, disk, id, c.digest(bytes))
  {
  }

  lemma SafeInTurn(c: Crypto, start: Disk, a: seq<Moment>, b: seq<Moment>, path: Key, id: EntryId, sha256: int)
    requires forall k :: 0 <= k < |a| && a[k].who == Self ==> a[k].disk.files == Before(start, a, k).files
    requires forall t :: t in b ==> Recoverable(c, t.disk, id, sha256)
    ensures forall i, j :: 0 <= i <= j < |a + b| && Removes(start, a + b, i, path) ==>
              Recoverable(c, (a + b)[j].disk, id, sha256)
  {
    forall i, j | 0 <= i <= j < |a + b| && Removes(start, a + b, i, path)
      ensures Recoverable(c, (a + b)[j].disk, id, sha256)
    {
      RemovedAfter(start, a, b, i, path);
      assert i >= |a| ==> (a + b)[j] in b;
    }
    hide Recoverable;
    hide Removes;
  }

  lemma RemovedAfter(start: Disk, a: seq<Moment>, b: seq<Moment>, i: nat, path: Key)
    requires i < |a + b|
    requires forall k :: 0 <= k < |a| && a[k].who == Self ==> a[k].disk.files == Before(start, a, k).files
    ensures i < |a| ==> !Removes(start, a + b, i, path)
  {
    assert i < |a| ==> (a + b)[i] == a[i] && Before(start, a + b, i) == Before(start, a, i);
  }

  lemma EntryIsThere(c: Crypto, disk: Disk, id: EntryId, bytes: Bytes)
    requires Holds(c, disk, id, bytes)
    ensures id in disk.entries && disk.device.Some?
  {
  }

  /** Others only ever touch the source path, and only where the code looks at it; this process
      changes no other file and no other entry, and reports what it did. */
  lemma OutcomeIsHonest(c: Crypto, disk: Disk, f: Finding, w: Draw, o: Outside)
    requires Ideal(c)
    ensures var r := QuarantineRun(c, disk, f, w, o);
            var n := Last(disk, r.0);
            && (r.1 == Failed <==> PublishRun(c, disk, f, w, o).1.None?)
            && (r.1 == Failed ==> n.entries == disk.entries)
            && (r.1 != Failed ==> Recoverable(c, n, w.id, f.sha256) && n.entries - {w.id} == disk.entries)
            && (r.1 == Moved ==> f.path !in n.files && n.entries[w.id].metadata.state == Quarantined)
            && (r.1 == Partial ==> n.entries[w.id].metadata.state == CopyOnly)
  {
    var p := PublishRun(c, disk, f, w, o);
    PublishedHolds(c, disk, f, w, o);
    hide PublishRun;
    hide Ideal;
    hide Holds;
    if p.1.Some? {
      var published := Last(disk, p.0);
      var bytes := Streaming.Flatten(o.chunks);
      EntryIsThere(c, published, w.id, bytes);
      HonestRemoval(c, published, f, w, o, p.1.value, bytes);
      var r := RemoveRun(c, published, f, w, o, p.1.value);
      hide RemoveRun;
      hide Recoverable;
      assert Last(disk, p.0 + r.0) == Last(published, r.0);
      hide Last;
    }
  }

  lemma HonestRemoval(c: Crypto, disk: Disk, f: Finding, w: Draw, o: Outside, source: File, bytes: Bytes)
    requires w.id in disk.entries && disk.device.Some?
    requires Holds(c, disk, w.id, bytes) && c.digest(bytes) == f.sha256
    ensures var r := RemoveRun(c, disk, f, w, o, source);
            var n := Last(disk, r.0);
            && r.0 != [] && r.1 != Failed
            && Recoverable(c, n, w.id, f.sha256) && n.entries - {w.id} == disk.entries - {w.id}
            && (r.1 == Moved ==> f.path !in n.files && n.entries[w.id].metadata.state == Quarantined)
            && (r.1 == Partial ==> n.entries[w.id].metadata.state == CopyOnly)
  {
    var r := RemoveRun(c, disk, f, w, o, source);
    RemoveHolds(c, disk, f, w, o, source, bytes);
    RemoveReports(c, disk, f, w, o, source);
    hide RemoveRun;
    hide Holds;
    assert r.0[|r.0| - 1] in r.0;
    HeldIsRecoverable(c, Last(disk, r.0), w.id, bytes);
    hide Recoverable;
    hide Last;
  }

  predicate SameElsewhere(a: Disk, b: Disk, path: Key) {
    a.files - {path} == b.files - {path}
  }

  /** No file but the source ever changes. */
  lemma OnlyThePathChanges(c: Crypto, disk: Disk, f: Finding, w: Draw, o: Outside)
    ensures forall t :: t in QuarantineRun(c, disk, f, w, o).0 ==> SameElsewhere(disk, t.disk, f.path)
  {
    PublishElsewhere(c, disk, f, w, o);
    var p := PublishRun(c, disk, f, w, o);
    hide PublishRun;
    if p.1.Some? {
      RemoveElsewhere(c, Last(disk, p.0), f, w, o, p.1.value);
    }
    hide RemoveRun;
  }

  lemma PublishElsewhere(c: Crypto, disk: Disk, f: Finding, w: Draw, o: Outside)
    ensures var p := PublishRun(c, disk, f, w, o);
            && (forall t :: t in p.0 ==> SameElsewhere(disk, t.disk, f.path))
            && (p.1.Some? ==> p.0 != [] && w.id in Last(disk, p.0).entries && Last(disk, p.0).device.Some?)
  {
    hide CopyIsSound;
    hide SealedEntry;
  }

  lemma RemoveElsewhere(c: Crypto, disk: Disk, f: Finding, w: Draw, o: Outside, source: File)
    requires w.id in disk.entries && disk.device.Some?
    ensures forall t :: t in RemoveRun(c, disk, f, w, o, source).0 ==> SameElsewhere(disk, t.disk, f.path)
  {
    FrontKeeps(disk, f, o, source);
    var front := FrontRun(disk, f, o, source);
    assert front[|front| - 1] in front;
    hide FrontRun;
    hide Removed;
    hide Rewrite;
  }

  /** The looks of other processes are those of the environment, in order: nothing this process does
      is ascribed to them. */
  function Looks(moments: seq<Moment>, path: Key): seq<Option<File>> {
    if moments == [] then []
    else
      var front, last := Looks(moments[..|moments| - 1], path), moments[|moments| - 1];
      if last.who == Self then front
      else front + [if path in last.disk.files then Some(last.disk.files[path]) else None]
  }

  lemma {:induction false} LooksInTurn(a: seq<Moment>, b: seq<Moment>, path: Key)
    ensures Looks(a + b, path) == Looks(a, path) + Looks(b, path)
  {
    if b == [] {
      assert a + b == a;
    } else {
      assert (a + b)[..|a + b| - 1] == a + b[..|b| - 1];
      LooksInTurn(a, b[..|b| - 1], path);
    }
  }

  lemma OthersDoWhatTheyDo(c: Crypto, disk: Disk, f: Finding, w: Draw, o: Outside)
    ensures Looks(QuarantineRun(c, disk, f, w, o).0, f.path) <= [o.atOpen, o.atRecheck, o.atUnlink]
  {
    var p := PublishRun(c, disk, f, w, o);
    PublishLooks(c, disk, f, w, o);
    hide PublishRun;
    if p.1.Some? {
      var published := Last(disk, p.0);
      RemoveLooks(c, published, f, w, o, p.1.value);
      hide RemoveRun;
      LooksInTurn(p.0, RemoveRun(c, published, f, w, o, p.1.value).0, f.path);
    }
    hide Looks;
  }

  lemma PublishLooks(c: Crypto, disk: Disk, f: Finding, w: Draw, o: Outside)
    ensures var p := PublishRun(c, disk, f, w, o);
            && Looks(p.0, f.path) <= [o.atOpen]
            && (p.1.Some? ==> Looks(p.0, f.path) == [o.atOpen]
                              && w.id in Last(disk, p.0).entries && Last(disk, p.0).device.Some?)
  {
    hide CopyIsSound;
    hide SealedEntry;
    var keyed := Keyed(disk, w);
    var seen := Placed(keyed, f.path, o.atOpen);
    LooksOfOne(Moment(keyed, Self), f.path);
    LooksOfOne(Moment(seen, Other), f.path);
    LooksInTurn([Moment(keyed, Self)], [Moment(seen, Other)], f.path);
    assert [Moment(keyed, Self)] + [Moment(seen, Other)] == [Moment(keyed, Self), Moment(seen, Other)];
    var p := PublishRun(c, disk, f, w, o);
    if p.1.Some? {
      LooksOfOne(p.0[2], f.path);
      LooksInTurn([Moment(keyed, Self), Moment(seen, Other)], [p.0[2]], f.path);
    }
    hide Looks;
  }

  lemma LooksOfOne(m: Moment, path: Key)
    ensures Looks([m], path) ==
            if m.who == Self then [] else [if path in m.disk.files then Some(m.disk.files[path]) else None]
  {
    assert [m][..0] == [];
  }

  lemma RemoveLooks(c: Crypto, disk: Disk, f: Finding, w: Draw, o: Outside, source: File)
    requires w.id in disk.entries && disk.device.Some?
    ensures Looks(RemoveRun(c, disk, f, w, o, source).0, f.path) <= [o.atRecheck, o.atUnlink]
  {
    var front := FrontRun(disk, f, o, source);
    FrontLooks(disk, f, o, source);
    RecordLooks(c, Last(disk, front), w, Quarantined, Some(w.finishedAt), o.recordFails, Moved, front, f.path);
    RecordLooks(c, Last(disk, front), w, CopyOnly, None, o.recordFails, Partial, front, f.path);
    hide FrontRun;
    hide RecordRun;
    hide Looks;
    hide Removed;
  }

  lemma FrontLooks(disk: Disk, f: Finding, o: Outside, source: File)
    ensures Looks(FrontRun(disk, f, o, source), f.path) <= [o.atRecheck, o.atUnlink]
  {
    var a := Moment(Placed(disk, f.path, o.atRecheck), Other);
    var b := Moment(Placed(a.disk, f.path, o.atUnlink), Other);
    var gone := Moment(b.disk.(files := b.disk.files - {f.path}), Self);
    LooksOfOne(a, f.path);
    LooksOfMore([a], b, f.path);
    LooksOfMore([a, b], gone, f.path);
    assert [a] + [b] == [a, b] && [a, b] + [gone] == [a, b, gone];
    hide Looks;
    hide LooksSame;
  }

  lemma LooksOfMore(front: seq<Moment>, m: Moment, path: Key)
    ensures Looks(front + [m], path) ==
            Looks(front, path)
            + if m.who == Self then [] else [if path in m.disk.files then Some(m.disk.files[path]) else None]
  {
    LooksInTurn(front, [m], path);
    LooksOfOne(m, path);
  }

  lemma RecordLooks(c: Crypto, disk: Disk, w: Draw, state: EntryState, at: Option<int>, fails: bool,
                    outcome: QuarantineOutcome, front: seq<Moment>, path: Key)
    requires w.id in disk.entries && disk.device.Some?
    ensures Looks(front + RecordRun(c, disk, w, state, at, fails, outcome).0, path) == Looks(front, path)
  {
    var r := RecordRun(c, disk, w, state, at, fails, outcome).0;
    LooksInTurn(front, r, path);
    if r != [] {
      LooksOfOne(r[0], path);
    }
  }

  /** An undisturbed run: at every moment the original file is in place or an entry holds exactly its
      bytes, and unless the system refuses an operation it ends with the file moved. */
  lemma UndisturbedRunKeepsTheBytes(c: Crypto, disk: Disk, f: Finding, w: Draw, o: Outside)
    requires Ideal(c) && f.path in disk.files && Quiet(o, disk.files[f.path])
    ensures var source := disk.files[f.path];
            var r := QuarantineRun(c, disk, f, w, o);
            && (forall t :: t in r.0 ==>
                  (f.path in t.disk.files && t.disk.files[f.path] == source) || Holds(c, t.disk, w.id, source.content))
            && (Unhindered(c, disk, f, w, o) ==> r.1 == Moved && Holds(c, Last(disk, r.0), w.id, source.content))
  {
    var p := PublishRun(c, disk, f, w, o);
    PublishedHolds(c, disk, f, w, o);
    QuietPublish(c, disk, f, w, o);
    hide Ideal;
    hide Holds;
    hide PublishRun;
    if p.1.Some? {
      var published := Last(disk, p.0);
      EntryIsThere(c, published, w.id, disk.files[f.path].content);
      RemoveHolds(c, published, f, w, o, p.1.value, disk.files[f.path].content);
      QuietRemove(c, published, f, w, o, p.1.value);
      hide RemoveRun;
      var r := RemoveRun(c, published, f, w, o, p.1.value);
      assert r.0[|r.0| - 1] in r.0;
    }
    hide Quiet;
  }

  lemma QuietPublish(c: Crypto, disk: Disk, f: Finding, w: Draw, o: Outside)
    requires f.path in disk.files && Quiet(o, disk.files[f.path])
    ensures var source := disk.files[f.path];
            var p := PublishRun(c, disk, f, w, o);
            && (forall t :: t in p.0 ==> f.path in t.disk.files && t.disk.files[f.path] == source)
            && (AsScanned(c, f, source) && w.id !in disk.entries && !o.copyFails ==> p.1 == Some(source))
  {
    hide SealedEntry;
  }

  lemma QuietRemove(c: Crypto, disk: Disk, f: Finding, w: Draw, o: Outside, source: File)
    requires w.id in disk.entries && disk.device.Some? && Quiet(o, source)
    ensures var r := RemoveRun(c, disk, f, w, o, source);
            !o.unlinkFails && !o.recordFails ==> r.1 == Moved
  {
    hide Rewritten;
    hide FrontRun;
  }

  /** The last look and the removal are two actions. What a finished quarantine has removed is stored
      if and only if the file in place at the removal had the content that was read. */
  lemma RemovedIsStoredExactly(c: Crypto, disk: Disk, f: Finding, w: Draw, o: Outside)
    requires Ideal(c) && QuarantineRun(c, disk, f, w, o).1 == Moved
    ensures o.atUnlink.Some?
    ensures Holds(c, Last(disk, QuarantineRun(c, disk, f, w, o).0), w.id, o.atUnlink.value.content)
            <==> o.atUnlink.value.content == Streaming.Flatten(o.chunks)
  {
    var p := PublishRun(c, disk, f, w, o);
    var bytes := Streaming.Flatten(o.chunks);
    PublishedHolds(c, disk, f, w, o);
    hide PublishRun;
    hide Ideal;
    var published := Last(disk, p.0);
    EntryIsThere(c, published, w.id, bytes);
    hide Holds;
    MovedHadFile(c, published, f, w, o, p.1.value);
    RemoveHolds(c, published, f, w, o, p.1.value, bytes);
    hide RemoveRun;
    var r := RemoveRun(c, published, f, w, o, p.1.value);
    var end := Last(disk, p.0 + r.0);
    assert end == r.0[|r.0| - 1].disk && r.0[|r.0| - 1] in r.0;
    if Holds(c, end, w.id, o.atUnlink.value.content) {
      HoldsOnce(c, end, w.id, o.atUnlink.value.content, bytes);
    }
  }

  lemma MovedHadFile(c: Crypto, disk: Disk, f: Finding, w: Draw, o: Outside, source: File)
    requires w.id in disk.entries && disk.device.Some?
    ensures RemoveRun(c, disk, f, w, o, source).1 == Moved ==> o.atUnlink.Some?
  {
    hide Rewritten;
    hide FrontRun;
  }

  /** Whatever file replaces the source after the last look is removed in its place, and its content is
      not stored: the path is gone and the entry holds the scanned bytes. */
  lemma ReplacedSourceIsLost(c: Crypto, disk: Disk, f: Finding, w: Draw, o: Outside, other: File)
    requires Ideal(c) && Unhindered(c, disk, f, w, o) && other.content != disk.files[f.path].content
    ensures var replaced := o.(atUnlink := Some(other));
            var run := QuarantineRun(c, disk, f, w, replaced);
            var end := Last(disk, run.0);
            && run.1 == Moved && f.path !in end.files
            && end.entries - {w.id} == disk.entries && !Holds(c, end, w.id, other.content)
            && Recoverable(c, end, w.id, f.sha256)
  {
    var replaced := o.(atUnlink := Some(other));
    MovedAllTheSame(c, disk, f, w, o, other);
    OutcomeIsHonest(c, disk, f, w, replaced);
    RemovedIsStoredExactly(c, disk, f, w, replaced);
    hide QuarantineRun;
    hide Holds;
    hide Ideal;
    hide Recoverable;
    hide PublishRun;
  }

  lemma MovedAllTheSame(c: Crypto, disk: Disk, f: Finding, w: Draw, o: Outside, other: File)
    requires Unhindered(c, disk, f, w, o)
    ensures QuarantineRun(c, disk, f, w, o.(atUnlink := Some(other))).1 == Moved
  {
    var replaced := o.(atUnlink := Some(other));
    QuietPublish(c, disk, f, w, o);
    PublishElsewhere(c, disk, f, w, o);
    SamePublish(c, disk, f, w, o, other);
    hide PublishRun;
    hide Rewritten;
  }

  /** Publishing does not depend on what happens at the removal. */
  lemma SamePublish(c: Crypto, disk: Disk, f: Finding, w: Draw, o: Outside, other: File)
    ensures PublishRun(c, disk, f, w, o.(atUnlink := Some(other))) == PublishRun(c, disk, f, w, o)
  {
    hide SealedEntry;
  }

  // ---------- what decides the outcome ----------

  /** Something that the code compares tells the two files apart. */
  predicate Differs(a: File, b: File) {
    || a.device != b.device || (a.inode != b.inode && a.inode != 0 && b.inode != 0)
    || |a.content| != |b.content| || a.modifiedNs != b.modifiedNs
  }

  /** A copy is published exactly if the path holds a regular file of the scanned size, the file opened
      there is that one and is still unchanged after it was read in full, what was read has the scanned
      digest, and the system lets a new entry be written. */
  predicate Publishable(c: Crypto, disk: Disk, f: Finding, w: Draw, o: Outside) {
    && f.path in disk.files && disk.files[f.path].regular && |disk.files[f.path].content| == f.size
    && o.atOpen.Some? && o.atOpen.value.regular && !Differs(disk.files[f.path], o.atOpen.value)
    && !Differs(o.atOpen.value, o.afterRead) && |Streaming.Flatten(o.chunks)| == f.size
    && c.digest(Streaming.Flatten(o.chunks)) == f.sha256
    && !o.copyFails && w.id !in disk.entries
  }

  /** The second look finds the file that was inspected. */
  predicate StillThere(disk: Disk, f: Finding, o: Outside)
    requires f.path in disk.files
  {
    o.atRecheck.Some? && !Differs(disk.files[f.path], o.atRecheck.value)
  }

  lemma PublishedExactly(c: Crypto, disk: Disk, f: Finding, w: Draw, o: Outside)
    ensures var p := PublishRun(c, disk, f, w, o);
            && (p.1.Some? <==> Publishable(c, disk, f, w, o))
            && (p.1.Some? ==> p.1.value == disk.files[f.path] && w.id in Last(disk, p.0).entries
                              && Last(disk, p.0).device.Some?)
  {
    hide SealedEntry;
  }

  lemma LooksSameExactly(o: Outside, source: File)
    ensures LooksSame(o, source) <==> o.atRecheck.Some? && !Differs(source, o.atRecheck.value)
  {
  }

  /** Each outcome and when it comes about, in terms of what the code finds and the system refuses. In
      particular the source is only ever taken away if the second look has seen the inspected file. */
  lemma OutcomeIsExact(c: Crypto, disk: Disk, f: Finding, w: Draw, o: Outside)
    ensures var outcome := QuarantineRun(c, disk, f, w, o).1;
            && (outcome == Failed <==> !Publishable(c, disk, f, w, o))
            && (outcome == Aborted <==> Publishable(c, disk, f, w, o) && o.recordFails)
            && (outcome == Moved <==>
                  Publishable(c, disk, f, w, o) && StillThere(disk, f, o)
                  && !o.unlinkFails && o.atUnlink.Some? && !o.recordFails)
  {
    PublishedExactly(c, disk, f, w, o);
    hide PublishRun;
    hide Publishable;
    if f.path in disk.files {
      LooksSameExactly(o, disk.files[f.path]);
    }
    hide LooksSame;
    hide Differs;
    hide FrontRun;
    hide Rewritten;
  }

  predicate SelfRemoves(start: Disk, moments: seq<Moment>, path: Key) {
    exists i :: 0 <= i < |moments| && Removes(start, moments, i, path)
  }

  lemma RemovesInTurn(start: Disk, a: seq<Moment>, b: seq<Moment>, path: Key)
    ensures SelfRemoves(start, a + b, path) <==> SelfRemoves(start, a, path) || SelfRemoves(Last(start, a), b, path)
  {
    var all := a + b;
    forall i | 0 <= i < |all|
      ensures Removes(start, all, i, path) ==
              if i < |a| then Removes(start, a, i, path) else Removes(Last(start, a), b, i - |a|, path)
    {
      assert Before(start, all, i) == if i < |a| then Before(start, a, i) else Before(Last(start, a), b, i - |a|);
    }
    hide Removes;
    if SelfRemoves(start, a, path) {
      var i :| 0 <= i < |a| && Removes(start, a, i, path);
      assert Removes(start, all, i, path);
    }
    if SelfRemoves(Last(start, a), b, path) {
      var i :| 0 <= i < |b| && Removes(Last(start, a), b, i, path);
      assert Removes(start, all, |a| + i, path);
    }
  }

  lemma FrontRemoves(disk: Disk, f: Finding, o: Outside, source: File)
    ensures SelfRemoves(disk, FrontRun(disk, f, o, source), f.path) <==> Removed(o, source)
  {
    hide LooksSame;
    var front := FrontRun(disk, f, o, source);
    assert Removed(o, source) ==> Removes(disk, front, 2, f.path);
  }

  /** What is at the path, if anything. */
  function Found(disk: Disk, path: Key): Option<File> {
    if path in disk.files then Some(disk.files[path]) else None
  }

  lemma FrontEnds(disk: Disk, f: Finding, o: Outside, source: File)
    ensures Found(Last(disk, FrontRun(disk, f, o, source)), f.path) ==
            if !LooksSame(o, source) then o.atRecheck
            else if o.unlinkFails || o.atUnlink.None? then o.atUnlink else None
  {
    hide SameSnapshot;
  }

  lemma RecordLeavesFiles(c: Crypto, disk: Disk, w: Draw, state: EntryState, at: Option<int>, fails: bool,
                          outcome: QuarantineOutcome, path: Key)
    requires w.id in disk.entries && disk.device.Some?
    ensures var r := RecordRun(c, disk, w, state, at, fails, outcome).0;
            Found(Last(disk, r), path) == Found(disk, path) && !SelfRemoves(disk, r, path)
  {
    hide Rewrite;
  }

  lemma RemoveRemoves(c: Crypto, disk: Disk, f: Finding, w: Draw, o: Outside, source: File)
    requires w.id in disk.entries && disk.device.Some?
    ensures var r := RemoveRun(c, disk, f, w, o, source).0;
            && (SelfRemoves(disk, r, f.path) <==> Removed(o, source))
            && Found(Last(disk, r), f.path) ==
               if !LooksSame(o, source) then o.atRecheck
               else if o.unlinkFails || o.atUnlink.None? then o.atUnlink else None
  {
    var front := FrontRun(disk, f, o, source);
    var last := Last(disk, front);
    FrontRemoves(disk, f, o, source);
    FrontEnds(disk, f, o, source);
    RecordLeavesFiles(c, last, w, Quarantined, Some(w.finishedAt), o.recordFails, Moved, f.path);
    RecordLeavesFiles(c, last, w, CopyOnly, None, o.recordFails, Partial, f.path);
    var r := if Removed(o, source) then RecordRun(c, last, w, Quarantined, Some(w.finishedAt), o.recordFails, Moved).0
             else RecordRun(c, last, w, CopyOnly, None, o.recordFails, Partial).0;
    RemovesInTurn(disk, front, r, f.path);
    assert Last(disk, front + r) == Last(last, r);
    hide FrontRun;
    hide RecordRun;
    hide SelfRemoves;
    hide Removed;
    hide LooksSame;
    hide Found;
  }

  lemma PublishRemoves(c: Crypto, disk: Disk, f: Finding, w: Draw, o: Outside)
    ensures var p := PublishRun(c, disk, f, w, o);
            && !SelfRemoves(disk, p.0, f.path)
            && Found(Last(disk, p.0), f.path) ==
               if f.path in disk.files && disk.files[f.path].regular && |disk.files[f.path].content| == f.size
               then o.atOpen else Found(disk, f.path)
  {
    hide SealedEntry;
    hide CopyIsSound;
  }

  /** The source is taken away exactly if a copy was published, the second look saw the inspected file,
      and the removal found a file and worked. In every other run this process removes nothing, and the
      path ends as other processes left it where the code looked last: a source that was changed after
      the copy stays as it was found then. */
  lemma SourceGoesExactly(c: Crypto, disk: Disk, f: Finding, w: Draw, o: Outside)
    ensures var run := QuarantineRun(c, disk, f, w, o).0;
            var end := Found(Last(disk, run), f.path);
            var published := Publishable(c, disk, f, w, o);
            && (SelfRemoves(disk, run, f.path) <==>
                  published && StillThere(disk, f, o) && !o.unlinkFails && o.atUnlink.Some?)
            && (published && !StillThere(disk, f, o) ==> end == o.atRecheck)
            && (published && StillThere(disk, f, o) ==>
                  end == if o.unlinkFails || o.atUnlink.None? then o.atUnlink else None)
            && (!published ==>
                  end == if f.path in disk.files && disk.files[f.path].regular
                            && |disk.files[f.path].content| == f.size
                         then o.atOpen else Found(disk, f.path))
  {
    var p := PublishRun(c, disk, f, w, o);
    PublishedExactly(c, disk, f, w, o);
    PublishRemoves(c, disk, f, w, o);
    hide PublishRun;
    hide Publishable;
    if p.1.Some? {
      var published := Last(disk, p.0);
      var r := RemoveRun(c, published, f, w, o, p.1.value).0;
      RemoveRemoves(c, published, f, w, o, p.1.value);
      LooksSameExactly(o, p.1.value);
      RemovesInTurn(disk, p.0, r, f.path);
      hide RemoveRun;
      assert Last(disk, p.0 + r) == Last(published, r);
    }
    hide SelfRemoves;
    hide Differs;
    hide LooksSame;
    hide Found;
  }

  /** Nothing that an entry held is lost, whatever the run: every entry of the store holds at every
      moment what it held before. */
  lemma OthersKeepHolding(c: Crypto, disk: Disk, f: Finding, w: Draw, o: Outside, id: EntryId, bytes: Bytes)
    requires Holds(c, disk, id, bytes)
    ensures forall t :: t in QuarantineRun(c, disk, f, w, o).0 ==> Holds(c, t.disk, id, bytes)
  {
    var run := QuarantineRun(c, disk, f, w, o).0;
    StoreIsKept(c, disk, f, w, o, id);
    forall t | t in run ensures Holds(c, t.disk, id, bytes) {
      HoldsWhateverTheFiles(c, disk, t.disk, id, bytes);
    }
    hide QuarantineRun;
  }

  lemma StoreIsKept(c: Crypto, disk: Disk, f: Finding, w: Draw, o: Outside, id: EntryId)
    requires id in disk.entries && disk.device.Some?
    ensures forall t :: t in QuarantineRun(c, disk, f, w, o).0 ==>
              t.disk.device == disk.device && id in t.disk.entries && t.disk.entries[id] == disk.entries[id]
  {
    var p := PublishRun(c, disk, f, w, o);
    PublishKeepsStore(c, disk, f, w, o, id);
    PublishedExactly(c, disk, f, w, o);
    hide PublishRun;
    if p.1.Some? {
      RemoveKeepsStore(c, Last(disk, p.0), f, w, o, p.1.value, id);
    }
    hide Publishable;
    hide RemoveRun;
  }

  lemma PublishKeepsStore(c: Crypto, disk: Disk, f: Finding, w: Draw, o: Outside, id: EntryId)
    requires id in disk.entries && disk.device.Some?
    ensures var p := PublishRun(c, disk, f, w, o);
            && (forall t :: t in p.0 ==>
                  t.disk.device == disk.device && id in t.disk.entries && t.disk.entries[id] == disk.entries[id])
            && (p.1.Some? ==> p.0 != [] && Last(disk, p.0) == p.0[|p.0| - 1].disk && w.id !in disk.entries)
  {
    hide SealedEntry;
    hide CopyIsSound;
  }

  lemma RemoveKeepsStore(c: Crypto, disk: Disk, f: Finding, w: Draw, o: Outside, source: File, id: EntryId)
    requires w.id in disk.entries && disk.device.Some? && id in disk.entries && id != w.id
    ensures forall t :: t in RemoveRun(c, disk, f, w, o, source).0 ==>
              t.disk.device == disk.device && id in t.disk.entries && t.disk.entries[id] == disk.entries[id]
  {
    FrontKeeps(disk, f, o, source);
    hide FrontRun;
    hide Removed;
    hide Rewrite;
  }

  /** What the entry says of a finding that was copied: where the file was and what it looked like, when
      and why it was taken, under which draws it was sealed, and how far the run has come. */
  lemma EntryTellsTheFinding(c: Crypto, disk: Disk, f: Finding, w: Draw, o: Outside)
    requires Publishable(c, disk, f, w, o)
    ensures var run := QuarantineRun(c, disk, f, w, o);
            var source, n := disk.files[f.path], Last(disk, run.0);
            && w.id in n.entries
            && var m := n.entries[w.id].metadata;
               && m.id == w.id && m.originalPath == f.path && m.sha256 == f.sha256 && m.size == f.size
               && m.mode == source.mode && m.modifiedNs == source.modifiedNs
               && m.createdAt == w.createdAt && m.matches == f.matches && m.zba == w.zba && m.history == []
               && m.vault.salt == w.salt && m.vault.wrapNonce == w.wrapNonce && m.vault.contentNonce == w.contentNonce
               && (run.1 == Moved ==> m.state == Quarantined && m.quarantinedAt == Some(w.finishedAt))
               && (run.1 == Partial ==> m.state == CopyOnly && m.quarantinedAt == None)
               && (run.1 == Aborted ==> m.state == CopyReady && m.quarantinedAt == None)
  {
    var p := PublishRun(c, disk, f, w, o);
    PublishedExactly(c, disk, f, w, o);
    PublishTells(c, disk, f, w, o);
    hide PublishRun;
    hide Publishable;
    RecordTells(c, Last(disk, p.0), f, w, o, p.1.value);
    hide RemoveRun;
    assert RemoveRun(c, Last(disk, p.0), f, w, o, p.1.value).0 != [];
  }

  lemma PublishTells(c: Crypto, disk: Disk, f: Finding, w: Draw, o: Outside)
    ensures var p := PublishRun(c, disk, f, w, o);
            p.1.Some? ==>
              && w.id in Last(disk, p.0).entries
              && var m := Last(disk, p.0).entries[w.id].metadata;
                 && m.id == w.id && m.originalPath == f.path && m.sha256 == f.sha256 && m.size == f.size
                 && m.mode == p.1.value.mode && m.modifiedNs == p.1.value.modifiedNs
                 && m.createdAt == w.createdAt && m.matches == f.matches && m.zba == w.zba && m.history == []
                 && m.vault.salt == w.salt && m.vault.wrapNonce == w.wrapNonce && m.vault.contentNonce == w.contentNonce
                 && m.state == CopyReady && m.quarantinedAt == None
  {
    hide CopyIsSound;
    hide Encipher;
    hide Project;
  }

  lemma RecordTells(c: Crypto, disk: Disk, f: Finding, w: Draw, o: Outside, source: File)
    requires w.id in disk.entries && disk.device.Some?
    ensures var r := RemoveRun(c, disk, f, w, o, source);
            && r.0 != [] && r.1 != Failed && w.id in Last(disk, r.0).entries
            && var m, n := disk.entries[w.id].metadata, Last(disk, r.0).entries[w.id].metadata;
               n == m.(state := n.state, quarantinedAt := n.quarantinedAt, mac := n.mac)
               && (r.1 == Moved ==> n.state == Quarantined && n.quarantinedAt == Some(w.finishedAt))
               && (r.1 == Partial ==> n.state == CopyOnly && n.quarantinedAt == None)
               && (r.1 == Aborted ==> n == m)
  {
    FrontKeeps(disk, f, o, source);
    hide FrontRun;
    hide Removed;
  }

  // ---------- restore ----------

  /** What the caller asks for, and what the system does: a usable parent directory, a temporary copy
      that cannot be written, a destination that appears in between, a refused link, a failing
      metadata write. */
  datatype Request = Request(destination: Option<Key>, parentUsable: bool, copyFails: bool, appears: Option<File>,
                             linkFails: bool, recordFails: bool, now: int, inode: nat)

  /** `Unrecorded`: the file was restored, but the metadata could not be rewritten. */
  datatype RestoreOutcome = Done | Unrecorded | Refused

  function Target(m: Metadata, r: Request): Key {
    if r.destination.Some? then r.destination.value else m.originalPath
  }

  /** `_read_metadata` accepts the metadata of the entry. */
  predicate Readable(c: Crypto, disk: Disk, id: EntryId)
    requires id in disk.entries
  {
    var m := disk.entries[id].metadata;
    disk.device.Some? && c.encoded(m) <= MAX_METADATA_BYTES && m.id == id && Verifies(c, disk.device.value, m)
  }

  function Extended(history: seq<(int, Key)>, now: int, target: Key): seq<(int, Key)> {
    var longer := history + [(now, target)];
    if |longer| > MAX_RESTORE_RECORDS then longer[|longer| - MAX_RESTORE_RECORDS..] else longer
  }

  function RestoredFile(m: Metadata, plain: Bytes, inode: nat): File {
    File(plain, 0, inode, m.modifiedNs, m.mode % 512, true)
  }

  /** `restore_entry` */
  function RestoreRun(c: Crypto, disk: Disk, id: EntryId, r: Request): (seq<Moment>, RestoreOutcome) {
    if id !in disk.entries || !Readable(c, disk, id) then ([], Refused)
    else
      var m := disk.entries[id].metadata;
      var target := Target(m, r);
      var plain := Decrypt(c, disk.device.value, disk.entries[id]);
      if target in disk.files || !r.parentUsable || r.copyFails then ([], Refused)
      else if plain.None? || c.digest(plain.value) != m.sha256 || |plain.value| != m.size then ([], Refused)
      else if r.appears.Some? then ([Moment(Placed(disk, target, r.appears), Other)], Refused)
      else if r.linkFails then ([], Refused)
      else
        var linked := Placed(disk, target, Some(RestoredFile(m, plain.value, r.inode)));
        if r.recordFails then ([Moment(linked, Self)], Unrecorded)
        else
          var recorded := Rewritten(c, linked, id, Restored, m.quarantinedAt, Extended(m.history, r.now, target));
          ([Moment(linked, Self), Moment(recorded, Self)], Done)
  }

  /** The destination is free and stays free, and the system refuses nothing before the link. */
  predicate WayIsFree(disk: Disk, target: Key, r: Request) {
    target !in disk.files && r.parentUsable && !r.copyFails && r.appears.None? && !r.linkFails
  }

  /** Whatever the entry is, only bytes it authentically holds are ever restored, onto a free name,
      and no other file or entry changes. */
  lemma RestoreIsAuthentic(c: Crypto, disk: Disk, id: EntryId, r: Request)
    ensures var run := RestoreRun(c, disk, id, r);
            var n := Last(disk, run.0);
            && (run.1 == Refused ==> n.entries == disk.entries)
            && (run.1 == Refused && (id in disk.entries ==> r.appears.None?) ==> n == disk)
            && (run.1 != Refused ==>
                  && id in disk.entries
                  && var target := Target(disk.entries[id].metadata, r);
                     && target !in disk.files && target in n.files
                     && Holds(c, disk, id, n.files[target].content)
                     && n.files == disk.files[target := n.files[target]]
                     && n.entries == disk.entries[id := n.entries[id]])
  {
    hide Decrypt;
    hide Sign;
  }

  /** An entry that holds its bytes is restored exactly when its metadata is within the size bound
      and the way is free, and it holds them still in every state. */
  lemma RestoreIsExact(c: Crypto, disk: Disk, id: EntryId, bytes: Bytes, r: Request)
    requires Holds(c, disk, id, bytes)
    ensures var run := RestoreRun(c, disk, id, r);
            var m := disk.entries[id].metadata;
            var free := c.encoded(m) <= MAX_METADATA_BYTES && WayIsFree(disk, Target(m, r), r);
            && (run.1 == Done <==> free && !r.recordFails)
            && (run.1 == Unrecorded <==> free && r.recordFails)
            && (run.1 != Refused ==>
                  Last(disk, run.0).files == disk.files[Target(m, r) := RestoredFile(m, bytes, r.inode)])
            && (forall t :: t in run.0 ==> Holds(c, t.disk, id, bytes))
  {
    var run := RestoreRun(c, disk, id, r);
    var e := disk.entries[id];
    var target := Target(e.metadata, r);
    var linked := Placed(disk, target, Some(RestoredFile(e.metadata, bytes, r.inode)));
    HoldsWhateverTheFiles(c, disk, linked, id, bytes);
    HoldsWhateverTheFiles(c, disk, Placed(disk, target, r.appears), id, bytes);
    RewriteKeepsContent(c, linked, id, bytes, Restored, e.metadata.quarantinedAt,
                        Extended(e.metadata.history, r.now, target));
    assert Decrypt(c, disk.device.value, e) == Some(bytes);
    hide Decrypt;
    hide Rewritten;
    hide Extended;
    hide RestoredFile;
  }

  /** A finished restore is recorded in the metadata, at most a hundred of them, and changes nothing
      that is authenticated. */
  lemma RestoreIsRecorded(c: Crypto, disk: Disk, id: EntryId, bytes: Bytes, r: Request)
    requires Holds(c, disk, id, bytes) && RestoreRun(c, disk, id, r).1 == Done
    ensures var m, n := disk.entries[id].metadata, Last(disk, RestoreRun(c, disk, id, r).0);
            && id in n.entries && Holds(c, n, id, bytes)
            && n.entries[id].metadata.state == Restored && Project(n.entries[id].metadata) == Project(m)
            && n.entries[id].metadata.history == Extended(m.history, r.now, Target(m, r))
            && |n.entries[id].metadata.history| <= MAX_RESTORE_RECORDS
            && var target := if r.destination.Some? then r.destination.value else m.originalPath;
               var all, kept := m.history + [(r.now, target)], n.entries[id].metadata.history;
               && |kept| == (if |all| < 100 then |all| else 100) && all[|all| - |kept|..] == kept
               && n.entries[id].metadata == m.(state := Restored, history := kept, mac := n.entries[id].metadata.mac)
  {
    RestoreIsExact(c, disk, id, bytes, r);
    hide Decrypt;
    hide Holds;
  }

  /** The round trip: what an unhindered quarantine took away comes back byte for byte, with its time
      and mode, wherever other files have gone meanwhile, exactly when the metadata is within the
      size bound and the way is free. */
  lemma QuarantineThenRestore(c: Crypto, disk: Disk, f: Finding, w: Draw, o: Outside, files: map<Key, File>, r: Request)
    requires Ideal(c) && Unhindered(c, disk, f, w, o)
    ensures var source := disk.files[f.path];
            var later := Last(disk, QuarantineRun(c, disk, f, w, o).0).(files := files);
            var run := RestoreRun(c, later, w.id, r);
            && w.id in later.entries
            && var m := later.entries[w.id].metadata;
               var target := if r.destination.Some? then r.destination.value else f.path;
               && (run.1 == Done <==>
                     c.encoded(m) <= MAX_METADATA_BYTES && WayIsFree(later, target, r) && !r.recordFails)
               && (run.1 == Done ==>
                     Last(later, run.0).files == files[target := File(source.content, 0, r.inode, source.modifiedNs,
                                                                      source.mode % 512, true)])
  {
    var source := disk.files[f.path];
    UndisturbedRunKeepsTheBytes(c, disk, f, w, o);
    QuarantinedMetadata(c, disk, f, w, o);
    var n := Last(disk, QuarantineRun(c, disk, f, w, o).0);
    hide QuarantineRun;
    hide Ideal;
    hide Unhindered;
    EntryIsThere(c, n, w.id, source.content);
    HoldsWhateverTheFiles(c, n, n.(files := files), w.id, source.content);
    hide Holds;
    RestoreIsExact(c, n.(files := files), w.id, source.content, r);
    hide RestoreRun;
    hide WayIsFree;
  }

  /** The metadata that an unhindered quarantine leaves describes the finding and the source. */
  lemma QuarantinedMetadata(c: Crypto, disk: Disk, f: Finding, w: Draw, o: Outside)
    requires Ideal(c) && Unhindered(c, disk, f, w, o)
    ensures var n := Last(disk, QuarantineRun(c, disk, f, w, o).0);
            w.id in n.entries && Project(n.entries[w.id].metadata) == Project(NewMetadata(f, w, disk.files[f.path]))
  {
    var p := PublishRun(c, disk, f, w, o);
    PublishedHolds(c, disk, f, w, o);
    QuietPublish(c, disk, f, w, o);
    hide Ideal;
    hide PublishRun;
    var published := Last(disk, p.0);
    EntryIsThere(c, published, w.id, Streaming.Flatten(o.chunks));
    RemoveReports(c, published, f, w, o, p.1.value);
    RemoveHolds(c, published, f, w, o, p.1.value, Streaming.Flatten(o.chunks));
    hide Holds;
    hide RemoveRun;
    hide Project;
    hide NewMetadata;
  }

  // ---------- the size bound ----------

  function TextBytes(texts: seq<string>): nat {
    if texts == [] then 0 else TextBytes(texts[..|texts| - 1]) + |texts[|texts| - 1]|
  }

  function HistoryBytes(history: seq<(int, Key)>): nat {
    if history == [] then 0
    else HistoryBytes(history[..|history| - 1]) + TextBytes(history[|history| - 1].1)
  }

  /** A metadata file writes out at least the matches and the restore destinations. */
  ghost predicate WritesTexts(c: Crypto) {
    forall m :: c.encoded(m) >= TextBytes(m.matches) + HistoryBytes(m.history)
  }

  /** Quarantine does not check the size bound: a finding whose matches exceed it is moved away, and
      no request restores it. */
  lemma OverlongFindingIsStranded(c: Crypto, disk: Disk, f: Finding, w: Draw, o: Outside,
                                  files: map<Key, File>, r: Request)
    requires Ideal(c) && WritesTexts(c) && Unhindered(c, disk, f, w, o)
    requires TextBytes(f.matches) > MAX_METADATA_BYTES
    ensures var q := QuarantineRun(c, disk, f, w, o);
            && q.1 == Moved && Holds(c, Last(disk, q.0), w.id, disk.files[f.path].content)
            && RestoreRun(c, Last(disk, q.0).(files := files), w.id, r).1 == Refused
  {
    UndisturbedRunKeepsTheBytes(c, disk, f, w, o);
    QuarantinedMetadata(c, disk, f, w, o);
    var n := Last(disk, QuarantineRun(c, disk, f, w, o).0);
    assert n.entries[w.id].metadata.matches == f.matches;
    hide QuarantineRun;
    hide Ideal;
    hide Holds;
    hide Decrypt;
  }

  /** Restoring lengthens the history, so a restore can be the last one: the entry still holds its
      bytes, but is refused from then on. */
  lemma RestoreCanBeTheLast(c: Crypto, disk: Disk, id: EntryId, bytes: Bytes, r: Request,
                            files: map<Key, File>, again: Request)
    requires WritesTexts(c) && Holds(c, disk, id, bytes) && RestoreRun(c, disk, id, r).1 == Done
    requires var m := disk.entries[id].metadata;
             HistoryBytes(Extended(m.history, r.now, Target(m, r))) > MAX_METADATA_BYTES
    ensures var n := Last(disk, RestoreRun(c, disk, id, r).0);
            Holds(c, n, id, bytes) && RestoreRun(c, n.(files := files), id, again).1 == Refused
  {
    RestoreIsRecorded(c, disk, id, bytes, r);
    hide Holds;
    hide Decrypt;
    hide Extended;
    var n := Last(disk, RestoreRun(c, disk, id, r).0);
    assert c.encoded(n.entries[id].metadata) > MAX_METADATA_BYTES;
    hide WritesTexts;
  }

  /** An ideal encryption whose metadata files hold the bare texts. */
  const BARE: Crypto := Crypto(
    (_: Bytes) => 0, (_: int, _: int, _: nat, b: bv8) => b, (_: int, _: int, _: nat, b: bv8) => b,
    (_: int, _: int, _: Projection, _: Bytes) => 0,
    (_: int, _: EntryId, _: int, _: int, _: Projection, k: int) => k,
    (_: int, _: EntryId, _: int, _: int, _: Projection, k: int) => Some(k),
    (_: int, _: Metadata) => 0,
    (m: Metadata) => TextBytes(m.matches) + HistoryBytes(m.history))

  lemma {:induction false} RepeatedHistory(n: nat, target: Key)
    ensures HistoryBytes(seq(n, _ => (0, target))) == n * TextBytes(target)
  {
    var all: seq<(int, Key)> := seq(n, _ => (0, target));
    if n > 0 {
      RepeatedHistory(n - 1, target);
      assert all[..n - 1] == seq(n - 1, _ => (0, target));
    }
  }

  lemma {:induction false} RepeatedText(n: nat, text: string)
    ensures TextBytes(seq(n, _ => text)) == n * |text|
  {
    var all: seq<string> := seq(n, _ => text);
    if n > 0 {
      RepeatedText(n - 1, text);
      assert all[..n - 1] == seq(n - 1, _ => text);
    }
  }

  /** A path of 22 components of 120 characters each. */
  function LongPath(): Key {
    seq(22, _ => seq(120, _ => 'x'))
  }

  /** An entry that was restored 99 times to that path. */
  function OftenRestored(): Metadata {
    Metadata(0, Quarantined, [], 0, 0, 0, 0, 0, None, seq(99, _ => (0, LongPath())), [], 0, Envelope(0, 0, 0, 0), 0, 0)
  }

  /** The hundredth restore to a long path can be the last. */
  lemma LastRestoreHappens()
    ensures exists disk: Disk, r ::
              && Ideal(BARE) && WritesTexts(BARE) && Holds(BARE, disk, 0, [])
              && RestoreRun(BARE, disk, 0, r).1 == Done
              && var n := Last(disk, RestoreRun(BARE, disk, 0, r).0);
                 Holds(BARE, n, 0, []) && forall again :: RestoreRun(BARE, n, 0, again).1 == Refused
  {
    var target, m := LongPath(), OftenRestored();
    var disk := Disk(map[], map[0 := Entry([], m)], Some(0));
    var r := Request(Some(target), true, false, None, false, false, 0, 1);
    OftenRestoredBytes();
    assert Holds(BARE, disk, 0, []);
    hide OftenRestored;
    hide LongPath;
    RestoreIsExact(BARE, disk, 0, [], r);
    RestoreIsRecorded(BARE, disk, 0, [], r);
    var n := Last(disk, RestoreRun(BARE, disk, 0, r).0);
    forall again ensures RestoreRun(BARE, n, 0, again).1 == Refused {
      RestoreCanBeTheLast(BARE, disk, 0, [], r, n.files, again);
      assert n.(files := n.files) == n;
    }
    hide RestoreRun;
    hide Holds;
  }

  lemma OftenRestoredBytes()
    ensures BARE.encoded(OftenRestored()) <= MAX_METADATA_BYTES
    ensures HistoryBytes(Extended(OftenRestored().history, 0, LongPath())) > MAX_METADATA_BYTES
  {
    var target, history := LongPath(), OftenRestored().history;
    RepeatedText(22, seq(120, _ => 'x'));
    RepeatedHistory(99, target);
    RepeatedHistory(100, target);
    assert history + [(0, target)] == seq(100, _ => (0, target));
    hide TextBytes;
    hide HistoryBytes;
    hide LongPath;
  }

  /** A file with 2048 matches of 200 characters each, as many as there can be rules. */
  lemma OverlongFindingHappens()
    ensures exists disk: Disk, f, w, o ::
              && Ideal(BARE) && WritesTexts(BARE) && Unhindered(BARE, disk, f, w, o)
              && TextBytes(f.matches) > MAX_METADATA_BYTES
  {
    var text: string := seq(200, _ => 'x');
    var matches: seq<string> := seq(2048, _ => text);
    RepeatedText(2048, text);
    var file := File([], 0, 1, 0, 0, true);
    var disk := Disk(map[[] := file], map[], None);
    var f := Finding([], 0, 0, matches);
    var w := Draw(0, 0, 0, 0, 0, 0, 0, 0, 0);
    var o := Outside(Some(file), [], file, false, Some(file), Some(file), false, false);
    hide TextBytes;
    assert Streaming.Flatten(o.chunks) == [];
    assert Unhindered(BARE, disk, f, w, o);
  }

  // ---------- the store ----------

  class QuarantineStore {
    const crypto: Crypto
    var disk: Disk
    ghost var trace: seq<Moment>

    constructor (crypto: Crypto, disk: Disk)
      ensures this.crypto == crypto && this.disk == disk && trace == []
    {
      this.crypto, this.disk, trace := crypto, disk, [];
    }

    /** The run has been carried out, on the disk and in the trace. */
    twostate predicate Did(moments: seq<Moment>)
      reads this
    {
      trace == old(trace) + moments && disk == Last(old(disk), moments)
    }

    /** Another process leaves the path as given. */
    method Outsider(path: Key, file: Option<File>)
      modifies this
      ensures disk == Placed(old(disk), path, file) && trace == old(trace) + [Moment(disk, Other)]
    {
      disk := disk.(files := if file.Some? then disk.files[path := file.value] else disk.files - {path});
      trace := trace + [Moment(disk, Other)];
    }

    method Write(next: Disk)
      modifies this
      ensures disk == next && trace == old(trace) + [Moment(next, Self)]
    {
      disk := next;
      trace := trace + [Moment(next, Self)];
    }

    /** The encryption loop: hashes each chunk it reads and seals it at its offset. */
    method EncryptSource(chunks: seq<Bytes>, key: int, nonce: int, aad: Projection)
      returns (digest: int, sealed: Bytes, tag: int)
      ensures digest == crypto.digest(Streaming.Flatten(chunks))
      ensures sealed == Encipher(crypto, key, nonce, 0, Streaming.Flatten(chunks))
      ensures tag == crypto.tag(key, nonce, aad, sealed)
    {
      var hashed: Bytes := [];
      sealed := [];
      for k := 0 to |chunks|
        invariant hashed == Streaming.Flatten(chunks[..k])
        invariant sealed == Encipher(crypto, key, nonce, 0, hashed)
      {
        Streaming.FlattenGrows(chunks, k);
        EncipherGrows(crypto, key, nonce, hashed, chunks[k]);
        hashed := hashed + chunks[k];
        sealed := sealed + Encipher(crypto, key, nonce, |sealed|, chunks[k]);
      }
      assert chunks[..|chunks|] == chunks;
      digest := crypto.digest(hashed);
      tag := crypto.tag(key, nonce, aad, sealed);
    }

    /** Seals the source into a new entry, unless it changed under the copy. */
    method PublishCopy(f: Finding, w: Draw, o: Outside) returns (source: Option<File>)
      modifies this
      ensures var p := PublishRun(crypto, old(disk), f, w, o); Did(p.0) && source == p.1
    {
      source := None;
      if f.path !in disk.files || !disk.files[f.path].regular || |disk.files[f.path].content| != f.size {
        return;
      }
      var snapshot := disk.files[f.path];
      Write(Keyed(disk, w));
      var device := disk.device.value;
      var metadata := NewMetadata(f, w, snapshot);
      var aad := Project(metadata);
      var wrapped := crypto.wrap(device, w.id, w.salt, w.wrapNonce, aad, w.contentKey);
      Outsider(f.path, o.atOpen);
      if o.atOpen.None? || !o.atOpen.value.regular || !SameSnapshot(snapshot, o.atOpen.value) {
        return;
      }
      var digest, sealed, tag := EncryptSource(o.chunks, w.contentKey, w.contentNonce, aad);
      if !SameSnapshot(o.atOpen.value, o.afterRead) || |sealed| != |o.atOpen.value.content| {
        return;
      }
      if digest != f.sha256 || o.copyFails || w.id in disk.entries {
        return;
      }
      metadata := metadata.(vault := Envelope(w.salt, w.wrapNonce, wrapped, w.contentNonce), contentTag := tag);
      hide SameSnapshot;
      hide Sign;
      Write(disk.(entries := disk.entries[w.id := Entry(sealed, Sign(crypto, device, metadata))]));
      source := Some(snapshot);
    }

    /** `_write_v2_metadata` with a new state and completion time. */
    method RecordState(w: Draw, state: EntryState, at: Option<int>, fails: bool, outcome: QuarantineOutcome)
      returns (r: QuarantineOutcome)
      requires w.id in disk.entries && disk.device.Some?
      modifies this
      ensures var run := RecordRun(crypto, old(disk), w, state, at, fails, outcome); Did(run.0) && r == run.1
    {
      if fails {
        return Aborted;
      }
      var e := disk.entries[w.id];
      Write(disk.(entries := disk.entries[w.id := e.(metadata :=
              Rewrite(crypto, disk.device.value, e.metadata, state, at, e.metadata.history))]));
      return outcome;
    }

    /** The published copy stays; the source goes if it still looks the same. */
    method RemoveSource(f: Finding, w: Draw, o: Outside, source: File) returns (r: QuarantineOutcome)
      requires w.id in disk.entries && disk.device.Some?
      modifies this
      ensures var run := RemoveRun(crypto, old(disk), f, w, o, source); Did(run.0) && r == run.1
    {
      hide RecordRun;
      hide SameSnapshot;
      Outsider(f.path, o.atRecheck);
      if o.atRecheck.None? || !SameSnapshot(source, o.atRecheck.value) {
        r := RecordState(w, CopyOnly, None, o.recordFails, Partial);
        return;
      }
      Outsider(f.path, o.atUnlink);
      if o.unlinkFails || o.atUnlink.None? {
        r := RecordState(w, CopyOnly, None, o.recordFails, Partial);
        return;
      }
      Write(disk.(files := disk.files - {f.path}));
      r := RecordState(w, Quarantined, Some(w.finishedAt), o.recordFails, Moved);
    }

    /** `quarantine_finding` carries out the run whose promises are proved above. */
    method QuarantineFinding(f: Finding, w: Draw, o: Outside) returns (r: QuarantineOutcome)
      modifies this
      ensures var run := QuarantineRun(crypto, old(disk), f, w, o); Did(run.0) && r == run.1
    {
      PublishElsewhere(crypto, disk, f, w, o);
      ghost var run := QuarantineRun(crypto, disk, f, w, o);
      hide PublishRun;
      hide RemoveRun;
      var source := PublishCopy(f, w, o);
      if source.None? {
        return Failed;
      }
      r := RemoveSource(f, w, o, source.value);
    }

    /** The decryption loop: every way of reading the stored file in chunks gives the decryption of
        the whole, and nothing unless the tag authenticates it. */
    method DecryptContent(e: Entry, device: int, chunks: seq<Bytes>) returns (r: Option<(int, nat)>, output: Bytes)
      requires Streaming.Flatten(chunks) == e.content
      ensures r.Some? <==> Decrypt(crypto, device, e).Some?
      ensures r.Some? ==> Decrypt(crypto, device, e) == Some(output) && r.value == (crypto.digest(output), |output|)
    {
      r, output := None, [];
      var m := e.metadata;
      if |e.content| != m.size {
        return;
      }
      var key := ContentKey(crypto, device, m);
      if key.None? {
        return;
      }
      ghost var taken: Bytes := [];
      var size := 0;
      for k := 0 to |chunks|
        invariant taken == Streaming.Flatten(chunks[..k]) && size == |taken|
        invariant output == Decipher(crypto, key.value, m.vault.contentNonce, 0, taken)
      {
        Streaming.FlattenGrows(chunks, k);
        DecipherGrows(crypto, key.value, m.vault.contentNonce, taken, chunks[k]);
        output := output + Decipher(crypto, key.value, m.vault.contentNonce, size, chunks[k]);
        size := size + |chunks[k]|;
        taken := taken + chunks[k];
      }
      assert chunks[..|chunks|] == chunks;
      if crypto.tag(key.value, m.vault.contentNonce, Project(m), e.content) != m.contentTag {
        return;
      }
      r := Some((crypto.digest(output), size));
    }

    /** `restore_entry` carries out the run whose promises are proved above. */
    method RestoreEntry(id: EntryId, r: Request, chunks: seq<Bytes>) returns (outcome: RestoreOutcome)
      requires id in disk.entries ==> Streaming.Flatten(chunks) == disk.entries[id].content
      modifies this
      ensures var run := RestoreRun(crypto, old(disk), id, r); Did(run.0) && outcome == run.1
    {
      hide Decrypt;
      hide Sign;
      if id !in disk.entries {
        return Refused;
      }
      var e := disk.entries[id];
      var m := e.metadata;
      if disk.device.None? || crypto.encoded(m) > MAX_METADATA_BYTES || m.id != id
         || !Verifies(crypto, disk.device.value, m)
      {
        return Refused;
      }
      var target := Target(m, r);
      if target in disk.files || !r.parentUsable || r.copyFails {
        return Refused;
      }
      var decrypted, plain := DecryptContent(e, disk.device.value, chunks);
      if decrypted.None? || decrypted.value.0 != m.sha256 || decrypted.value.1 != m.size {
        return Refused;
      }
      if r.appears.Some? {
        Outsider(target, r.appears);
        return Refused;
      }
      if r.linkFails {
        return Refused;
      }
      Write(disk.(files := disk.files[target := RestoredFile(m, plain, r.inode)]));
      if r.recordFails {
        return Unrecorded;
      }
      var history := m.history + [(r.now, target)];
      if |history| > MAX_RESTORE_RECORDS {
        history := history[|history| - MAX_RESTORE_RECORDS..];
      }
      Write(disk.(entries := disk.entries[id := e.(metadata :=
              Rewrite(crypto, disk.device.value, m, Restored, m.quarantinedAt, history))]));
      return Done;
    }
  }
}
