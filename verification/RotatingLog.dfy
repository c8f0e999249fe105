/**
 The bounded event log: encoded records appended to a current file with numbered backups. Files are
 bytes. A write may fail after storing some of a record, so the history keeps, for every append that
 reached the disk, the record and how many of its bytes were stored.
 */
module RotatingLog {
  import opened Paths

  type Line = seq<bv8>

  type File = seq<bv8>

  // ---------- what has been written ----------

  /** One append that opened the file: the first `stored` bytes of the record are on disk. */
  datatype Piece = Piece(record: Line, stored: nat) {
    ghost predicate Valid() {
      stored <= |record|
    }

    predicate Torn() {
      0 < stored < |record|
    }

    predicate Whole() {
      stored == |record|
    }
  }

  ghost predicate AllValid(pieces: seq<Piece>) {
    forall p :: p in pieces ==> p.Valid()
  }

  /** The bytes that the pieces left on disk, and those of the records stored as a whole. */
  ghost function Bytes(pieces: seq<Piece>): (r: File)
    requires AllValid(pieces)
  {
    if pieces == [] then []
    else
      var last := pieces[|pieces| - 1];
      assert last in pieces;
      Bytes(pieces[..|pieces| - 1]) + last.record[..last.stored]
  }

  function WholeRecords(pieces: seq<Piece>): seq<Line> {
    if pieces == [] then []
    else
      var last := pieces[|pieces| - 1];
      WholeRecords(pieces[..|pieces| - 1]) + if last.Whole() then [last.record] else []
  }

  function Joined(records: seq<Line>): File {
    if records == [] then [] else Joined(records[..|records| - 1]) + records[|records| - 1]
  }

  lemma JoinedMore(records: seq<Line>, r: Line)
    ensures Joined(records + [r]) == Joined(records) + r
  {
    assert (records + [r])[..|records|] == records;
  }

  lemma {:induction false} BytesInTurn(a: seq<Piece>, b: seq<Piece>)
    requires AllValid(a) && AllValid(b)
    ensures AllValid(a + b) && Bytes(a + b) == Bytes(a) + Bytes(b)
  {
    if b == [] {
      assert a + b == a;
    } else {
      assert (a + b)[..|a + b| - 1] == a + b[..|b| - 1];
      BytesInTurn(a, b[..|b| - 1]);
    }
  }

  lemma BytesMore(pieces: seq<Piece>, piece: Piece)
    requires AllValid(pieces) && piece.Valid()
    ensures AllValid(pieces + [piece]) && Bytes(pieces + [piece]) == Bytes(pieces) + piece.record[..piece.stored]
  {
    assert (pieces + [piece])[..|pieces|] == pieces;
  }

  /** The bytes are at least those of the whole records, and more as soon as one piece is torn. */
  lemma {:induction false} TornAddsBytes(pieces: seq<Piece>)
    requires AllValid(pieces)
    ensures |Bytes(pieces)| >= |Joined(WholeRecords(pieces))|
    ensures (exists p :: p in pieces && p.Torn()) ==> |Bytes(pieces)| > |Joined(WholeRecords(pieces))|
    ensures (forall p :: p in pieces ==> !p.Torn()) ==> Bytes(pieces) == Joined(WholeRecords(pieces))
  {
    if pieces != [] {
      var front, last := pieces[..|pieces| - 1], pieces[|pieces| - 1];
      assert pieces == front + [last] && last in pieces && last.Valid();
      TornAddsBytes(front);
      JoinedMore(WholeRecords(front), last.record);
      assert last.Whole() ==> last.record[..last.stored] == last.record;
      assert WholeRecords(front) + [] == WholeRecords(front);
      if forall p :: p in pieces ==> !p.Torn() {
        assert !last.Torn() && forall p :: p in front ==> !p.Torn();
        assert !last.Whole() ==> last.record[..last.stored] == [];
      }
    }
  }

  /** What is on disk is exactly the records stored as a whole, in order, if and only if no append
      failed after storing a non-empty proper part of its record. */
  lemma WholeRecordsExactly(pieces: seq<Piece>)
    requires AllValid(pieces)
    ensures Bytes(pieces) == Joined(WholeRecords(pieces)) <==> forall p :: p in pieces ==> !p.Torn()
  {
    TornAddsBytes(pieces);
  }

  /** After a torn append the next record runs on from the part that was stored. */
  lemma TornTailRunsOn(pieces: seq<Piece>, torn: Piece, next: Line)
    requires AllValid(pieces) && torn.Valid() && torn.Torn()
    ensures var after := pieces + [torn, Piece(next, |next|)];
            && AllValid(after)
            && Bytes(after) == Bytes(pieces) + torn.record[..torn.stored] + next
            && Bytes(after) != Joined(WholeRecords(after))
  {
    var after := pieces + [torn, Piece(next, |next|)];
    assert after[..|after| - 1] == pieces + [torn];
    assert (pieces + [torn])[..|pieces|] == pieces;
    assert next[..|next|] == next;
    assert torn in after;
    WholeRecordsExactly(after);
  }

  // ---------- the numbered backups ----------

  /** Backups `n` down to 1 read in that order; missing indices read as nothing. */
  function Older<T>(stored: map<nat, seq<T>>, n: nat): seq<T> {
    if n == 0 then [] else (if n in stored then stored[n] else []) + Older(stored, n - 1)
  }

  predicate IsSuffix<T(==)>(s: seq<T>, t: seq<T>) {
    |s| <= |t| && t[|t| - |s|..] == s
  }

  /** Bytes in the backups `1..n`. */
  function BackupBytes(stored: map<nat, File>, n: nat): nat {
    if n == 0 then 0 else (if n in stored then |stored[n]| else 0) + BackupBytes(stored, n - 1)
  }

  lemma {:induction false} OlderIgnoresAbove<T>(a: map<nat, seq<T>>, b: map<nat, seq<T>>, n: nat)
    requires forall i :: 1 <= i <= n ==> (i in a <==> i in b) && (i in a ==> a[i] == b[i])
    ensures Older(a, n) == Older(b, n)
  {
    if n > 0 {
      OlderIgnoresAbove(a, b, n - 1);
    }
  }

  function Moved<T>(stored: map<nat, seq<T>>, i: nat): map<nat, seq<T>>
    requires i in stored
  {
    (stored - {i})[i + 1 := stored[i]]
  }

  /** Renaming a backup to the vacant index above it does not change what is read. */
  lemma {:induction false} MoveKeepsReading<T>(stored: map<nat, seq<T>>, i: nat, n: nat)
    requires 1 <= i < n && i in stored && i + 1 !in stored
    ensures Older(Moved(stored, i), n) == Older(stored, n)
  {
    var m := Moved(stored, i);
    if n > i + 1 {
      MoveKeepsReading(stored, i, n - 1);
    } else {
      OlderIgnoresAbove(m, stored, i - 1);
      assert Older(stored, n) == [] + (stored[i] + Older(stored, i - 1));
      assert Older(m, n) == stored[i] + ([] + Older(m, i - 1));
    }
  }

  /** A file placed at the vacant index 1 is read after all other backups. */
  lemma {:induction false} NewestIsLast<T>(stored: map<nat, seq<T>>, f: seq<T>, n: nat)
    requires n >= 1 && 1 !in stored
    ensures Older(stored[1 := f], n) == Older(stored, n) + f
  {
    if n == 1 {
      assert Older(stored, 0) == [] && Older(stored[1 := f], 0) == [];
    } else {
      NewestIsLast(stored, f, n - 1);
    }
  }

  /** Dropping the highest backup drops the oldest part. */
  lemma DropOldest<T>(stored: map<nat, seq<T>>, n: nat)
    requires n >= 1
    ensures IsSuffix(Older(stored - {n}, n), Older(stored, n))
  {
    OlderIgnoresAbove(stored - {n}, stored, n - 1);
  }

  lemma SuffixTrans<T>(a: seq<T>, b: seq<T>, c: seq<T>)
    requires IsSuffix(a, b) && IsSuffix(b, c)
    ensures IsSuffix(a, c)
  {
  }

  lemma SuffixAppend<T>(a: seq<T>, b: seq<T>, x: seq<T>)
    requires IsSuffix(a, b)
    ensures IsSuffix(a + x, b + x)
  {
  }

  lemma {:induction false} BytesBounded(stored: map<nat, File>, n: nat, maxBytes: nat)
    requires forall i :: 1 <= i <= n && i in stored ==> |stored[i]| <= maxBytes
    ensures BackupBytes(stored, n) <= n * maxBytes
  {
    if n > 0 {
      BytesBounded(stored, n - 1, maxBytes);
      assert n * maxBytes == (n - 1) * maxBytes + maxBytes;
    }
  }

  /** The pieces account for the bytes of every numbered file. */
  ghost predicate Accounts(parts: map<nat, seq<Piece>>, stored: map<nat, File>) {
    && parts.Keys == stored.Keys
    && forall i :: i in parts ==> AllValid(parts[i]) && stored[i] == Bytes(parts[i])
  }

  lemma {:induction false} OlderAccounts(parts: map<nat, seq<Piece>>, stored: map<nat, File>, n: nat)
    requires Accounts(parts, stored)
    ensures AllValid(Older(parts, n)) && Older(stored, n) == Bytes(Older(parts, n))
  {
    if n > 0 {
      OlderAccounts(parts, stored, n - 1);
      if n in parts {
        BytesInTurn(parts[n], Older(parts, n - 1));
      } else {
        assert [] + Older(parts, n - 1) == Older(parts, n - 1);
      }
    }
  }

  /** The backups that exist among the first `n` indices. */
  function Existing(stored: map<nat, File>, n: nat): set<nat> {
    set i | 1 <= i <= n && i in stored
  }

  lemma ExistingNext(stored: map<nat, File>, n: nat)
    requires n >= 1
    ensures |Existing(stored, n)| == |Existing(stored, n - 1)| + if n in stored then 1 else 0
  {
    assert Existing(stored, n) == Existing(stored, n - 1) + if n in stored then {n} else {};
  }

  lemma SameBelow(a: map<nat, File>, b: map<nat, File>, n: nat)
    requires n >= 1 && Existing(a, n) == Existing(b, n)
    ensures Existing(a, n - 1) == Existing(b, n - 1) && (n in a <==> n in b)
  {
    assert n in Existing(a, n) <==> n in Existing(b, n);
    assert Existing(a, n - 1) == Existing(a, n) - {n} && Existing(b, n - 1) == Existing(b, n) - {n};
  }

  lemma ExistingMoved(stored: map<nat, File>, i: nat)
    requires i in stored && i >= 1
    ensures Existing(Moved(stored, i), i - 1) == Existing(stored, i - 1)
  {
  }

  lemma ExistingWithout(stored: map<nat, File>, n: nat)
    requires n >= 1
    ensures Existing(stored - {n}, n - 1) == Existing(stored, n - 1)
  {
  }

  lemma NoneExists(stored: map<nat, File>)
    ensures |Existing(stored, 0)| == 0
  {
    assert Existing(stored, 0) == {};
  }

  function Sum(results: seq<nat>): nat {
    if results == [] then 0 else results[0] + Sum(results[1..])
  }

  /** How many of `size` bytes a series of write results stores. */
  function Stores(size: nat, results: seq<nat>): (r: nat)
    ensures r <= size
  {
    if size == 0 || results == [] || results[0] == 0 then 0
    else if results[0] >= size then size
    else results[0] + Stores(size - results[0], results[1..])
  }

  /** Writing goes on while each write makes progress: what is stored is what the writes before the first
      failing one amount to, and never more than there is to store. */
  lemma {:induction false} StoresWhileProgress(size: nat, results: seq<nat>, k: nat)
    requires k <= |results| && (forall i :: 0 <= i < k ==> results[i] > 0) && (k < |results| ==> results[k] == 0)
    ensures Stores(size, results) == if Sum(results[..k]) < size then Sum(results[..k]) else size
  {
    if k > 0 && size > 0 {
      assert results[..k][1..] == results[1..][..k - 1];
      if results[0] < size {
        StoresWhileProgress(size - results[0], results[1..], k - 1);
      }
    }
  }

  lemma OneWrite(before: File, record: Line, count: nat, written: nat)
    requires count + written <= |record|
    ensures before + record[..count] + record[count..][..written] == before + record[..count + written]
    ensures record[count..][written..] == record[count + written..]
  {
  }

  // ---------- the log ----------

  class RotatingNdjsonLog {
    const maxBytes: nat
    const backups: nat
    var current: Option<File>
    var stored: map<nat, File>
    ghost var pieces: seq<Piece>
    ghost var tail: seq<Piece>
    ghost var parts: map<nat, seq<Piece>>

    /** Everything still on disk, oldest first. */
    ghost function Retained(): File
      reads this
    {
      Older(stored, backups) + Current()
    }

    /** The appends whose bytes are still on disk. */
    ghost function RetainedPieces(): seq<Piece>
      reads this
    {
      Older(parts, backups) + tail
    }

    function Current(): File
      reads this
    {
      if current.Some? then current.value else []
    }

    ghost predicate Bounded()
      reads this
    {
      && backups >= 1
      && |Current()| <= maxBytes
      && forall i :: 1 <= i <= backups && i in stored ==> |stored[i]| <= maxBytes
    }

    /** The history accounts for every byte, file by file, and what is retained is its end. */
    ghost predicate Valid()
      reads this
    {
      && Bounded()
      && Accounts(parts, stored) && AllValid(tail) && Current() == Bytes(tail)
      && IsSuffix(RetainedPieces(), pieces)
    }

    /** Starts over whatever bounded files are already there, even with gaps between the indices;
        `found` and `foundTail` are the appends that left them. */
    constructor (maxBytes: nat, backups: nat, current: Option<File>, stored: map<nat, File>,
                 ghost found: map<nat, seq<Piece>>, ghost foundTail: seq<Piece>)
      requires backups >= 1 && (current.Some? ==> |current.value| <= maxBytes)
      requires forall i :: 1 <= i <= backups && i in stored ==> |stored[i]| <= maxBytes
      requires Accounts(found, stored) && AllValid(foundTail)
      requires Bytes(foundTail) == if current.Some? then current.value else []
      ensures Valid() && this.maxBytes == maxBytes && this.backups == backups
      ensures pieces == RetainedPieces() && this.current == current && this.stored == stored
    {
      this.maxBytes, this.backups, this.current, this.stored := maxBytes, backups, current, stored;
      parts, tail := found, foundTail;
      pieces := Older(found, backups) + foundTail;
    }

    /** `os.replace(backup i, backup i + 1)`. The target must be vacant: no rename ever overwrites. */
    method RenameUp(i: nat)
      requires i in stored && i + 1 !in stored && i in parts
      modifies this`stored, this`parts
      ensures stored == Moved(old(stored), i) && parts == Moved(old(parts), i)
    {
      stored := (stored - {i})[i + 1 := stored[i]];
      parts := Moved(parts, i);
    }

    /** `os.replace(current, backup 1)`, again onto a vacant name. */
    method RenameCurrent()
      requires current.Some? && 1 !in stored
      modifies this`stored, this`current, this`parts, this`tail
      ensures stored == old(stored)[1 := old(current).value] && current.None?
      ensures parts == old(parts)[1 := old(tail)] && tail == []
    {
      stored := stored[1 := current.value];
      current := None;
      parts, tail := parts[1 := tail], [];
    }

    /** Removing the oldest backup. */
    method UnlinkOldest()
      requires Valid() && backups in stored
      modifies this`stored, this`parts
      ensures Valid() && stored == old(stored) - {backups} && parts == old(parts) - {backups}
    {
      DropOldest(parts, backups);
      SuffixAppend(Older(parts - {backups}, backups), Older(parts, backups), tail);
      SuffixTrans(Older(parts - {backups}, backups) + tail, RetainedPieces(), pieces);
      hide Older;
      hide IsSuffix;
      stored := stored - {backups};
      parts := parts - {backups};
    }

    /** Rotation stops early when a file operation fails, `steps` operations having succeeded: it is
        complete exactly when these cover every existing backup and the current file. It loses the
        oldest backup at most and moves everything else up in order. */
    method Rotate(steps: nat) returns (ok: bool)
      requires Valid() && current.Some?
      modifies this`stored, this`current, this`parts, this`tail
      ensures Valid()
      ensures ok <==> steps > |Existing(old(stored), backups)|
      ensures ok ==> current.None?
                     && Older(stored, backups) == Older(old(stored) - {backups}, backups) + old(current).value
      ensures !ok ==> current == old(current) && tail == old(tail)
                      && Older(stored, backups)
                         == Older(if steps == 0 then old(stored) else old(stored) - {backups}, backups)
    {
      hide Valid;
      assert backups >= 1 by { Positive(); }
      hide *;
      var left := steps;
      ExistingNext(stored, backups);
      ExistingWithout(stored, backups);
      if backups in stored {
        if left == 0 { return false; }
        left := left - 1;
        UnlinkOldest();
      }
      assert stored == old(stored) - {backups};
      ok, left := ShiftAll(left);
      if !ok || left == 0 { return false; }
      ShiftCurrent();
    }

    lemma Positive()
      requires Valid()
      ensures backups >= 1
    {
    }

    /** Moves every backup up by one, the highest first, as far as `steps` operations go. */
    method ShiftAll(steps: nat) returns (ok: bool, left: nat)
      requires Valid() && current.Some? && backups !in stored && backups >= 1
      modifies this`stored, this`parts
      ensures Valid() && Older(stored, backups) == Older(old(stored), backups)
      ensures ok <==> steps >= |Existing(old(stored), backups - 1)|
      ensures ok ==> 1 !in stored && left == steps - |Existing(old(stored), backups - 1)|
    {
      hide *;
      left := steps;
      for index := backups downto 1
        invariant Valid() && index !in stored && Older(stored, backups) == Older(old(stored), backups)
        invariant Existing(stored, index - 1) == Existing(old(stored), index - 1)
        invariant left + |Existing(old(stored), backups - 1)| == steps + |Existing(old(stored), index - 1)|
      {
        ExistingNext(old(stored), index);
        SameBelow(stored, old(stored), index);
        if index in stored {
          if left == 0 { return false, left; }
          left := left - 1;
          ShiftUp(index);
        }
      }
      NoneExists(old(stored));
      ok := true;
    }

    method ShiftUp(index: nat)
      requires Valid() && 1 <= index < backups && index in stored && index + 1 !in stored
      modifies this`stored, this`parts
      ensures Valid() && index !in stored && Older(stored, backups) == Older(old(stored), backups)
      ensures Existing(stored, index - 1) == Existing(old(stored), index - 1)
    {
      MoveKeepsReading(stored, index, backups);
      MoveKeepsReading(parts, index, backups);
      hide Older;
      hide IsSuffix;
      RenameUp(index);
      ExistingMoved(old(stored), index);
    }

    method ShiftCurrent()
      requires Valid() && current.Some? && 1 !in stored
      modifies this`stored, this`current, this`parts, this`tail
      ensures Valid() && current.None? && Older(stored, backups) == Older(old(stored), backups) + old(current).value
    {
      NewestIsLast(stored, current.value, backups);
      NewestIsLast(parts, tail, backups);
      assert Older(parts, backups) + tail + [] == RetainedPieces();
      hide Older;
      hide IsSuffix;
      RenameCurrent();
    }

    /** Appends one record, rotating first when it would not fit. `results` are the answers of
        successive writes: a write may store part of what is left, one that stores nothing is an
        error, and running out of answers stands for a failing call. A complete record may still
        fail to be flushed. `count` bytes of the record reach the disk. An over-long record changes
        nothing, and neither does one that needs a rotation which fails, but for the oldest backup. */
    method Append(record: Line, steps: nat, opens: bool, results: seq<nat>, flushes: bool)
      returns (ok: bool, count: nat)
      requires Valid()
      modifies this
      ensures Valid() && count <= |record|
      ensures ok ==> |record| <= maxBytes && count == |record| && pieces == old(pieces) + [Piece(record, |record|)]
      ensures pieces == old(pieces) + [Piece(record, count)] || (pieces == old(pieces) && count == 0)
      ensures |record| > maxBytes ==> !ok && count == 0 && stored == old(stored) && current == old(current)
      ensures |record| <= maxBytes && (old(|Current()|) == 0 || old(|Current()|) + |record| <= maxBytes) ==>
                stored == old(stored) && (ok <==> opens && Stores(|record|, results) == |record| && flushes)
                && count == (if opens then Stores(|record|, results) else 0)
                && Current() == old(Current()) + record[..count]
                && Retained() == old(Retained()) + record[..count]
      ensures |record| <= maxBytes && old(|Current()|) != 0 && old(|Current()|) + |record| > maxBytes ==>
                if steps > |Existing(old(stored), backups)| then
                  (ok <==> opens && Stores(|record|, results) == |record| && flushes)
                  && count == (if opens then Stores(|record|, results) else 0)
                  && Current() == record[..count]
                  && Retained() == Older(old(stored) - {backups}, backups) + old(Current()) + record[..count]
                else
                  !ok && count == 0 && current == old(current)
                  && Retained() == Older(if steps == 0 then old(stored) else old(stored) - {backups}, backups)
                                   + old(Current())
    {
      hide Older;
      ok, count := false, 0;
      if |record| > maxBytes {
        return;
      }
      if |Current()| != 0 && |Current()| + |record| > maxBytes {
        var rotated := Rotate(steps);
        if !rotated { return; }
      }
      ghost var before := Current();
      ghost var retained := Retained();
      assert before + record[..0] == before && retained + record[..0] == retained;
      if opens {
        count := AppendBytes(record, results);
        ok := count == |record| && flushes;
      }
    }

    /** Opens the file and writes; the history records what was stored. */
    method AppendBytes(record: Line, results: seq<nat>) returns (count: nat)
      requires Valid() && |Current()| + |record| <= maxBytes
      modifies this`current, this`tail, this`pieces
      ensures Valid() && count == Stores(|record|, results) && pieces == old(pieces) + [Piece(record, count)]
      ensures Retained() == old(Retained()) + record[..count] && Current() == old(Current()) + record[..count]
    {
      hide Older;
      hide IsSuffix;
      hide AllValid;
      hide Bytes;
      hide Accounts;
      ghost var retained := Retained();
      count := WriteAll(record, results);
      RecordPiece(old(Current()), Piece(record, count));
      assert Older(stored, backups) + (old(Current()) + record[..count]) == retained + record[..count];
    }

    /** The loop over `os.write`, until everything is stored or an error ends it. */
    method WriteAll(record: Line, results: seq<nat>) returns (count: nat)
      modifies this`current
      ensures count == Stores(|record|, results) && current == Some(old(Current()) + record[..count])
    {
      count := 0;
      var view := record;
      var k := 0;
      current := Some(Current());
      assert old(Current()) + record[..0] == old(Current());
      while view != [] && k < |results| && results[k] > 0
        invariant 0 <= k <= |results| && count <= |record| && view == record[count..]
        invariant current == Some(old(Current()) + record[..count])
        invariant Stores(|record|, results) == count + Stores(|view|, results[k..])
        decreases |results| - k
      {
        var written := if results[k] < |view| then results[k] else |view|;
        assert results[k..][1..] == results[k + 1..];
        OneWrite(old(Current()), record, count, written);
        current := Some(current.value + view[..written]);
        view := view[written..];
        count := count + written;
        k := k + 1;
      }
    }

    /** Extends the history by the piece just written. */
    ghost method RecordPiece(before: File, piece: Piece)
      requires Bounded() && Accounts(parts, stored) && AllValid(tail) && before == Bytes(tail)
      requires IsSuffix(RetainedPieces(), pieces) && piece.Valid()
      requires Current() == before + piece.record[..piece.stored]
      modifies this`tail, this`pieces
      ensures Valid() && pieces == old(pieces) + [piece]
    {
      SuffixAppend(RetainedPieces(), pieces, [piece]);
      assert RetainedPieces() + [piece] == Older(parts, backups) + (tail + [piece]);
      BytesMore(tail, piece);
      hide Older;
      hide IsSuffix;
      hide AllValid;
      hide Bytes;
      hide Accounts;
      pieces, tail := pieces + [piece], tail + [piece];
    }

    /** What is on disk, oldest first, is the bytes of the last appends that reached it, each file
        being within its bound; and it is exactly the whole records among them, in order, if and only
        if none of them failed after storing a non-empty proper part of its record. */
    lemma ReadsWholeRecords()
      requires Valid()
      ensures IsSuffix(RetainedPieces(), pieces) && AllValid(RetainedPieces())
      ensures Retained() == Bytes(RetainedPieces())
      ensures Retained() == Joined(WholeRecords(RetainedPieces())) <==>
              forall p :: p in RetainedPieces() ==> !p.Torn()
    {
      OlderAccounts(parts, stored, backups);
      BytesInTurn(Older(parts, backups), tail);
      WholeRecordsExactly(RetainedPieces());
    }

    /** The disk use never exceeds one bound per file. */
    lemma TotalIsBounded()
      requires Valid()
      ensures BackupBytes(stored, backups) + |Current()| <= (backups + 1) * maxBytes
    {
      BytesBounded(stored, backups, maxBytes);
      assert (backups + 1) * maxBytes == backups * maxBytes + maxBytes;
    }
  }
}
